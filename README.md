# crossfont core, modelled in Dafny

This project models the font-fallback and bitmap-normalisation core of
crossfont, the font rasterization library of the Alacritty terminal. It covers:

- **FreeType/Fontconfig backend** (Linux and BSD):
  - the font keys built from pattern hashes;
  - the face loader, which caches faces by key and native faces by file location;
  - the fallback lists that `get_face` builds;
  - the lazy, glyph-driven fallback walk of `face_for_glyph` / `load_face_with_glyph`;
  - the load-flag and render-mode decision tables;
  - `normalize_buffer` for every handled pixel mode;
  - the box-filter `downsample_bitmap`.
- **Fontconfig enumerations**: the integer codecs of `Rgba` and `Width` and the display names.
- **Shared types**: font descriptions, the `FontKey` allocator, the half-point `Size`, glyphs and errors.
- **CoreText backend** (macOS):
  - the byte-order extractors;
  - the UTF-16 glyph lookup;
  - the fallback list `to_font` builds;
  - the face searches;
  - the font cache;
  - the choice of the first font in the fallback chain that has the glyph.
- **DirectWrite backend** (Windows):
  - the texture type;
  - the alpha-texture normalisation;
  - the font cache with its search for a named face;
  - the primary-or-fallback choice of a glyph.

Native libraries are observed through data:
- a FreeType face is its character map, plus whether it has colour and whether it is scalable;
- a Fontconfig pattern is the properties the code reads from it (charset, file location, hash, rendering properties);
- the font files FreeType can open are a map from location to face;
- a CoreText font is its UTF-16 lookup table, traits and per-glyph drawing;
- DirectWrite is a font collection, a fallback function and a render function.

The `FontKey` counter is an explicit allocator object rather than a process-wide atomic.

Stateful parts are classes whose methods update maps:
- `FreeTypeLoader` (faces, native faces);
- `FreeTypeRasterizer` (fallback lists);
- `DirectWriteRasterizer` and the CoreText `Rasterizer` (fonts, keys);
- `KeyAllocator`.

Each loop of the source is a method with invariants. It is proved against a function on sequences, and lemmas about that function state what the source promises.

Modules:
- `Wrappers` (`wrappers.dfy`): `Option` and `Result`.
- `Crossfont` (`crossfont.dfy`): the shared types of `src/lib.rs`.
- `Fc` (`fc.dfy`): the `src/ft/fc/mod.rs` enumerations.
- `Pixels` (`pixels.dfy`): the row concatenation, the grey-to-RGB triple and the BGRA-to-RGBA swap, shared by the normalisers.
- `FtProps` (`ft_props.dfy`): patterns and the load-flag, render-mode and LCD-filter tables.
- `FreeType` (`freetype.dfy`): keys, the loader, fallback lists and the walk.
- `FtNormalize` (`ft_normalize.dfy`) and `FtDownsample` (`ft_downsample.dfy`): FreeType bitmap conversion.
- `ByteOrder` (`byte_order.dfy`) and `Darwin` (`darwin.dfy`): CoreText.
- `DirectWrite` (`directwrite.dfy`).

The repository's files disagree on some names of the shared types. This model uses one definition of each:
- `BitmapBuffer.Rgb`/`Rgba`, where `src/lib.rs:163-166` spells them `RGB`/`RGBA`.
- `Error.MetricsNotFound`, where `src/lib.rs:213` spells it `MetricsNotFont`.
- A `RasterizedGlyph` with the `advance` field that `src/ft/mod.rs` sets. The backends without one set it to `(0, 0)`.

## Model

| member | source | states |
|---|---|---|
| Crossfont.FontDescEquality | src/lib.rs:30-54 | Equality of `FontDesc` is structural: name and style, and inside the style either the `Specific` name or the slant and weight; a `Specific` never equals a `Description` |
| Crossfont.TokenOf | src/lib.rs:92-96 | The `n`-th key handed out has token `n mod 2^32`, which is `n` itself below 2^32 |
| Crossfont.TokensIncreasing | src/lib.rs:92-96 | Below 2^32, later allocations have strictly larger tokens, never repeat, and consecutive ones differ by exactly one |
| Crossfont.TokenWraps | src/lib.rs:95 | The `as _` cast to `u32` wraps: allocation `n + 2^32` repeats the token of allocation `n` |
| Crossfont.KeyAllocator.constructor | src/lib.rs:93 | The counter starts at 0 with nothing issued |
| Crossfont.KeyAllocator.Next | src/lib.rs:92-96 | `fetch_add`: returns the token of the old counter and increments it; the key joins the issued set and, before wrap-around, was never issued before |
| Crossfont.SizeOrder | src/lib.rs:106-108 | `Size` order and equality are those of its `i16` payload, and the order is total |
| Crossfont.Add | src/lib.rs:128-134 | Saturating addition: the exact sum when it fits in `i16`, else `i16::MAX` or `i16::MIN` |
| Crossfont.AddProperties | src/lib.rs:128-134 | Saturating addition is commutative, has `Size(0)` as identity and is monotone |
| Crossfont.Mul | src/lib.rs:136-142 | Plain `i16` product; the caller must keep it in range (an overflow panics in debug builds) |
| Crossfont.MulProperties | src/lib.rs:136-142 | In range, the product is commutative, has `Size(1)` as identity and `Size(0)` as annihilator, and times `Size(2)` equals the saturating `a + a` |
| Crossfont.CharIndex | src/directwrite/mod.rs:118-120 | The character-map lookup both DirectWrite's `get_glyph_index` and FreeType's `get_char_index` (src/ft/mod.rs:434, 457) use: a non-zero index is the face's own glyph for a mapped character, and an unmapped character gets 0, the missing glyph |
| Crossfont.DefaultGlyph | src/lib.rs:169-180 | The default glyph is `' '` with zero width, height, top and left and an empty RGB buffer |
| Fc.RgbaFromIsize | src/ft/fc/mod.rs:215-226 | `Rgba::from`: 1..=5 name a geometry (1 is `Rgb`, 4 is `Vbgr`) and every other value, 0 included, is `Unknown` |
| Fc.RgbaToIsize | src/ft/fc/mod.rs:189-200 | `to_isize` lies in 0..=5, is 0 exactly for `Unknown`, and `Rgba::from` inverts it on every variant |
| Fc.RgbaToIsizeInjective | src/ft/fc/mod.rs:189-200 | Distinct geometries have distinct integers |
| Fc.WrapI32 | src/ft/fc/mod.rs:173 | `value as i32` keeps the value when it fits and is congruent to it modulo 2^32 |
| Fc.WidthFromIsize | src/ft/fc/mod.rs:161-176 | `Width::from` gives a named class exactly for the nine named integers, else `Other` of the truncated value |
| Fc.WidthToIsize | src/ft/fc/mod.rs:144-159 | `to_isize` maps named classes to named integers and `Other(v)` to `v`; `Width::from` inverts it on every named class and on every `Other(v)` with `v` not a named integer |
| Fc.WidthOtherCollapses | src/ft/fc/mod.rs:145-176 | `Other(v)` with a named integer `v` does not survive the round trip |
| Fc.WidthToIsizeIncreasing | src/ft/fc/mod.rs:146-155 | `to_isize` is strictly increasing from `Ultracondensed` to `Ultraexpanded` |
| Fc.DisplayNamesDistinct | src/ft/fc/mod.rs:202-265 | The display names of `Rgba`, `HintStyle` and `LcdFilter` are pairwise distinct within each enumeration |
| FtProps.EffectiveHintStyle | src/ft/mod.rs:773-777 | Hinting disabled means hint style `None`; enabled without a style means `Full` |
| FtProps.BaseFlags | src/ft/mod.rs:779-810 | The initial flags: `MONOCHROME` iff no antialiasing, `NO_HINTING` iff hint style `None`, and the hinting target of the decision table |
| FtProps.FtLoadFlags | src/ft/mod.rs:763-829 | Each flag of `ft_load_flags` in terms of the pattern: `NO_BITMAP` iff embedded bitmaps are off for a scalable uncoloured font, `COLOR` iff colour, `FORCE_AUTOHINT` iff autohint, and the target of the table |
| FtProps.RenderModeFor | src/ft/mod.rs:831-841 | `Mono` iff no antialiasing, `Lcd` iff antialiased horizontal geometry, `LcdV` iff antialiased vertical geometry, never `Light` |
| FtProps.HintTargetMatchesRenderMode | src/ft/mod.rs:779-841 | With full hinting, or without antialiasing and with hinting on, the hinting target equals the render mode; `hintslight` with antialiasing never does |
| FtProps.LcdFilterCode | src/ft/mod.rs:843-850 | `FT_LCD_FILTER_NONE` is 0 and `LEGACY` is 16 |
| FtProps.LcdFilterFor | src/ft/mod.rs:843-850 | The pattern's filter code, `DEFAULT` when it has none |
| FtProps.LcdFilterCodeInjective | src/ft/mod.rs:843-850 | Distinct filters get distinct FreeType values |
| FreeType.RotateLeft1 | src/ft/mod.rs:46 | `rotate_left(1)` on `u32` is undone by `rotate_right(1)` |
| FreeType.XorTwice | src/ft/mod.rs:46 | Exclusive or of `k`-bit numbers with the same operand twice gives the value back |
| FreeType.XorCancel | src/ft/mod.rs:46 | `(a ^ b) ^ b == a` on `u32` |
| FreeType.FromPatternHashes | src/ft/mod.rs:43-48 | The requested pattern's hash is recoverable from the key and the matched pattern's hash |
| FreeType.FromPatternHashesInjective | src/ft/mod.rs:43-48 | For a fixed matched pattern, two requests give the same key iff their hashes are equal |
| FreeType.FaceFor | src/ft/mod.rs:718-751 | A loaded face keeps its location and native face; it is a coloured bitmap iff the native face has colour and is not scalable; its `COLOR` flag follows the pattern |
| FreeType.FreeTypeLoader.constructor | src/ft/mod.rs:674-684 | The loader starts with no faces and no native faces |
| FreeType.FreeTypeLoader.LoadFtFace | src/ft/mod.rs:686-699 | An openable location's native face is returned and cached under the location; an unopenable one is an error and caches nothing |
| FreeType.FreeTypeLoader.FaceFromPattern | src/ft/mod.rs:701-761 | No location: `None`, no change. A loaded key: `Some(key)`, no change. Otherwise the native face is reused from the location cache or opened and cached, and the face is inserted under the requested key only; an unopenable file is an error with no change |
| FreeType.FreeTypeLoader.TryCandidate | src/ft/mod.rs:452-476 | One candidate of the walk stops it exactly when it is decisive. A loaded face with the glyph returns its key; an unloaded candidate is loaded only when its own charset claims the character and it has a location; a failed open is the error |
| FreeType.Candidates | src/ft/mod.rs:401-413 | The candidates are the matches in sort order, each the prepared pattern with its hash-combined key |
| FreeType.CoverageIsUnion | src/ft/mod.rs:397-413 | A character is in the coverage iff some match's charset has it; a match without a charset contributes nothing |
| FreeType.BuildFallbackList | src/ft/mod.rs:397-415 | The collecting loop builds exactly the candidates and the coverage |
| FreeType.FirstDecisive | src/ft/mod.rs:452-479 | The walk stops at the first candidate, in list order, that is not skipped; every earlier one is skipped |
| FreeType.Walk | src/ft/mod.rs:444-480 | `load_face_with_glyph` returns the primary key or a member of the list; the primary key when the character is outside the coverage |
| FreeType.WalkLoadsOnlyClaimingCandidates | src/ft/mod.rs:464-473 | The walk loads at most one face, and only a list candidate whose own charset claims the character |
| FreeType.Lookup | src/ft/mod.rs:432-442 | `face_for_glyph` returns the requested key when its face has the glyph or the character is outside the coverage, else the walk's key (the requested key on error) |
| FreeType.WalkAfterLoad | src/ft/mod.rs:455-473 | After a load, a new walk stops no later than the loaded candidate and finds it there as a cache hit |
| FreeType.LookupSettles | src/ft/mod.rs:432-480 | If the face the first lookup loaded really has the glyph, repeating the lookup returns the same key and loads nothing |
| FreeType.LookupKeyLoaded | src/ft/mod.rs:203-205 | The key `face_for_glyph` returns has a loaded face, so `get_glyph`'s `faces[&font_key]` cannot panic |
| FreeType.WalkSettlesAfterLoad | src/ft/mod.rs:455-473 | A walk that loaded a face with the glyph finds that face again and changes nothing |
| FreeType.FreeTypeRasterizer.constructor | src/ft/mod.rs:136-143 | No fallback lists, no faces |
| FreeType.FreeTypeRasterizer.GetFace | src/ft/mod.rs:343-418 | No match is `FontNotFound`. An existing list returns its key untouched. Otherwise the primary face is loaded if need be (`FontNotFound` without a location, the open error without a file) and the remaining matches become its fallback list |
| FreeType.FreeTypeRasterizer.LoadFaceWithGlyph | src/ft/mod.rs:444-480 | Returns `Walk`, changes the faces and native faces only by loading the deciding candidate, and checks at most `len + 1` times |
| FreeType.FreeTypeRasterizer.FaceForGlyph | src/ft/mod.rs:432-442 | Returns `Lookup` and a key with a loaded face. A primary hit changes nothing; otherwise the faces and native faces are those the walk leaves |
| FtNormalize.Pitch | src/ft/mod.rs:493 | `pitch.unsigned_abs()` |
| FtNormalize.GrayRowsAt | src/ft/mod.rs:559-570 | Gray output row `i` is the tripled bytes `i * pitch .. i * pitch + width` |
| FtNormalize.GrayRow | src/ft/mod.rs:563-567 | The inner loop appends each byte of the row three times |
| FtNormalize.PackGray | src/ft/mod.rs:559-570 | The `Gray` arm produces the concatenation of the tripled rows |
| FtNormalize.GrayRowsPush | src/ft/mod.rs:560-568 | Each row extends the output by its tripled bytes |
| FtNormalize.ReverseTriadsAt | src/ft/mod.rs:500-506 | A BGR triad is written in reverse order |
| FtNormalize.BgrRow | src/ft/mod.rs:501-505 | The `step_by(3)` loop appends every triad of the row reversed |
| FtNormalize.LcdRowsAt | src/ft/mod.rs:495-511 | LCD output row `i` is source row `i` copied, or with its triads reversed for BGR |
| FtNormalize.LcdRowsPush | src/ft/mod.rs:496-509 | Each LCD row extends the output by that row |
| FtNormalize.LcdRowCopy | src/ft/mod.rs:499-508 | One row: the slice copied, or its triads reversed for BGR |
| FtNormalize.PackLcd | src/ft/mod.rs:495-511 | The `Lcd` arm produces the concatenation of the LCD rows |
| FtNormalize.VerticalPixelsAt | src/ft/mod.rs:514-522 | Pixel `j` takes column `j` of the three source rows, one per channel |
| FtNormalize.VerticalOutRowAt | src/ft/mod.rs:512-526 | Channel `c` of pixel `j` of output row `i` is byte `(3i + k) * pitch + j`, where `k` is `c`, or `2 - c` for VBGR |
| FtNormalize.LcdVRowsAt | src/ft/mod.rs:512-526 | The vertical output rows are the rows of `VerticalOutRow` |
| FtNormalize.PushTriad | src/ft/mod.rs:515-522 | The `k` loop pushes the three source bytes of one column in panel order |
| FtNormalize.VerticalRow3 | src/ft/mod.rs:514-523 | The `j` loop appends one vertical output row |
| FtNormalize.PackLcdV | src/ft/mod.rs:512-526 | The `LcdV` arm produces `rows / 3` output rows, concatenated |
| FtNormalize.MonoValue | src/ft/mod.rs:533 | `((byte >> bit) & 1) * 255` is 0 or 255 |
| FtNormalize.UnpackBitsAt | src/ft/mod.rs:529-542 | Pixel `j` of a byte is bit `7 - j`, MSB first, written three times |
| FtNormalize.UnpackByte | src/ft/mod.rs:529-542 | `unpack_byte` appends `count` pixels of the byte, MSB first |
| FtNormalize.MonoPixelsAtByte | src/ft/mod.rs:544-555 | Pixel `8q + m` of a mono row is bit `7 - m` of the row's byte `q` |
| FtNormalize.MonoPixelsAt | src/ft/mod.rs:544-555 | Pixel `j` of a mono row is bit `7 - j % 8` of the row's byte `j / 8` |
| FtNormalize.MonoRowStep | src/ft/mod.rs:548-554 | Unpacking `min(8, columns)` bits of the next byte moves those pixels from the rest of the row to the output |
| FtNormalize.MonoRow | src/ft/mod.rs:545-554 | The `while columns != 0` loop produces the row's pixels |
| FtNormalize.MonoRowsAt | src/ft/mod.rs:544-555 | Mono output row `i` is the unpacked row at `i * pitch`, `3 * width` bytes |
| FtNormalize.MonoRowsPush | src/ft/mod.rs:544-555 | Each mono row extends the output by its pixels |
| FtNormalize.PackMono | src/ft/mod.rs:544-556 | The `Mono` arm produces the concatenation of the unpacked rows |
| FtNormalize.PackBgra | src/ft/mod.rs:571-582 | The `Bgra` arm swaps the first `rows * width` pixels from BGRA to RGBA |
| FtNormalize.NormalizeBuffer | src/ft/mod.rs:485-585 | `normalize_buffer` of a handled mode with readable rows returns `Normalize`: rows, pixels per row, and the buffer of the mode's arm |
| FtNormalize.NormalizeLength | src/ft/mod.rs:485-585 | Buffer length per mode: `3 * rows * width` for Gray and Mono, `rows * width` for RGB-ordered LCD, `rows * 3 * ceil(width / 3)` for BGR LCD, `3 * (rows / 3) * width` for LcdV, `4 * rows * width` for Bgra; RGBA iff Bgra |
| FtNormalize.GrayFlatAt | src/ft/mod.rs:559-570 | In the flattened gray output, byte `k` of row `i` is source byte `i * pitch + k / 3` |
| FtNormalize.NormalizeGrayAt | src/ft/mod.rs:559-570 | Gray: rows and width unchanged; output byte `k` of row `i` is source byte `k / 3` of row `i` |
| FtNormalize.MonoFlatAt | src/ft/mod.rs:544-556 | In the flattened mono output, channel `c` of pixel `j` of row `i` is the bit of byte `i * pitch + j / 8` |
| FtNormalize.NormalizeMonoAt | src/ft/mod.rs:528-557 | Mono: rows and width unchanged; every channel of pixel `j` of row `i` is bit `7 - j % 8` of byte `j / 8` of the row, as 0 or 255 |
| FtNormalize.LcdFlatAt | src/ft/mod.rs:495-511 | In the flattened RGB-ordered LCD output, byte `k` of row `i` is source byte `i * pitch + k` |
| FtNormalize.NormalizeLcdAt | src/ft/mod.rs:495-511 | LCD in RGB order: `width / 3` pixels reported and every row copied verbatim |
| FtNormalize.LcdBgrFlatAt | src/ft/mod.rs:495-511 | In the flattened BGR output, channel `c` of triad `t` of row `i` is source byte `2 - c` of that triad |
| FtNormalize.NormalizeLcdBgrAt | src/ft/mod.rs:495-511 | LCD in BGR order: `width / 3` pixels reported and each triad reversed |
| FtNormalize.LcdVFlatAt | src/ft/mod.rs:512-526 | In the flattened vertical output, channel `c` of pixel `j` of row `i` comes from column `j` of source row `3i + c` (or `3i + 2 - c`) |
| FtNormalize.NormalizeLcdVAt | src/ft/mod.rs:512-526 | LcdV: `rows / 3` rows reported; channel `c` of pixel `j` of output row `i` is column `j` of source row `3i + c`, or `3i + 2 - c` for VBGR |
| FtNormalize.NormalizeBgraAt | src/ft/mod.rs:571-582 | Bgra: rows and width unchanged; every pixel `[b, g, r, a]` becomes `[r, g, b, a]` |
| FtDownsample.TargetFloor | src/ft/mod.rs:602-603 | The target size is the largest `t` with `t * den <= n * num` |
| FtDownsample.EdgeNearest | src/ft/mod.rs:613-621 | A source edge is the integer nearest `k * den / num`, halves rounded up |
| FtDownsample.EdgeStep | src/ft/mod.rs:613-621 | With a factor below one, consecutive edges differ, so every rectangle is non-empty |
| FtDownsample.EdgeMonotone | src/ft/mod.rs:613-621 | Edges are monotone |
| FtDownsample.EdgeWithin | src/ft/mod.rs:602-621 | The edge after the last output pixel is within the source size |
| FtDownsample.LineSumBounds | src/ft/mod.rs:630-637 | A line's sum over `c1 - c0` samples in `lo .. hi` lies between `c1 - c0` copies of `lo` and of `hi` |
| FtDownsample.RectSumBounds | src/ft/mod.rs:626-638 | A rectangle's sum lies between its area times `lo` and times `hi` |
| FtDownsample.MeanWithin | src/ft/mod.rs:640-644 | The truncating mean of a rectangle lies between its least and greatest sample |
| FtDownsample.Mean | src/ft/mod.rs:641-644 | The mean of bytes is at most 255, so the `as u8` cast keeps it |
| FtDownsample.MeanPixel | src/ft/mod.rs:640-644 | Four bytes: the mean of each channel |
| FtDownsample.AccumulateLine | src/ft/mod.rs:630-637 | The column loop adds each channel's line sum to `r`, `g`, `b`, `a` |
| FtDownsample.AveragePixel | src/ft/mod.rs:623-644 | The two inner loops and the divisions produce the mean pixel of the rectangle |
| FtDownsample.FullBufferCovers | src/ft/mod.rs:599-638 | A buffer of `width * height` RGBA pixels contains every source rectangle |
| FtDownsample.RectangleInside | src/ft/mod.rs:610-638 | Output pixel (`line`, `col`) averages a non-empty rectangle inside the source |
| FtDownsample.DownsampleLine | src/ft/mod.rs:616-645 | The column loop appends one output line |
| FtDownsample.DownsampleBuffer | src/ft/mod.rs:608-646 | The line loop produces the concatenated output lines |
| FtDownsample.DownsampleBitmap | src/ft/mod.rs:592-657 | `downsample_bitmap` returns `Downsample` |
| FtDownsample.OutRowAt | src/ft/mod.rs:616-645 | Channel `ch` of pixel `col` of an output line is that channel of `OutPixel` |
| FtDownsample.OutRowsAt | src/ft/mod.rs:610-646 | Output line `i` is the `i`-th `OutRow` |
| FtDownsample.DownsampleIdentity | src/ft/mod.rs:594-597 | Anything but an RGBA buffer with a factor below one is returned unchanged |
| FtDownsample.DownsampleShape | src/ft/mod.rs:599-656 | A shrunk glyph has the target size (no larger than the source) and an RGBA buffer of `4 * tw * th` bytes, and its top and left are scaled toward zero |
| FtDownsample.TargetBelow | src/ft/mod.rs:602-603 | The target size never exceeds the source size |
| FtDownsample.ScaleShrinks | src/ft/mod.rs:651-652 | Scaling top and left toward zero keeps their sign and does not increase their magnitude |
| FtDownsample.DownsampleAt | src/ft/mod.rs:610-645 | Each channel of each output pixel is the truncating mean over a non-empty source rectangle inside the bitmap, between its least and greatest sample |
| Pixels.TripleAt | src/directwrite/mod.rs:159-167 | Output byte `k` of the triplication is input byte `k / 3` |
| Pixels.SwapPixelsAt | src/ft/mod.rs:574-579 | Channel `c` of an output pixel is channel `SwapChannel(c)` of the input pixel (red and blue exchanged) |
| Pixels.SwapRedBlueAt | src/darwin/byte_order.rs:8-14 | Byte `k` of the swapped buffer is byte `SwapChannel(k % 4)` of the same input pixel |
| Pixels.SwapTwiceAt | src/darwin/byte_order.rs:8-14 | Swapping twice restores every byte of a whole pixel |
| Pixels.SwapRedBlueInvolution | src/darwin/byte_order.rs:4-17 | Little-endian `extract_rgba` applied twice to whole pixels is the identity |
| ByteOrder.ExtractRgbaLe | src/darwin/byte_order.rs:4-17 | Little-endian `extract_rgba` keeps `4 * (len / 4)` bytes and maps pixel `i` to `[in[4i+2], in[4i+1], in[4i], in[4i+3]]` |
| ByteOrder.DropAlphaPixelsAt | src/darwin/byte_order.rs:29-34 | RGB channel `c` of pixel `p` is byte `2 - c` of the BGRA pixel |
| ByteOrder.DropAlphaIsSwapWithoutAlpha | src/darwin/byte_order.rs:4-37 | The RGB extraction is the RGBA extraction without the alpha bytes |
| ByteOrder.ExtractRgbLe | src/darwin/byte_order.rs:25-37 | Little-endian `extract_rgb` has `3 * (len / 4)` bytes, `[in[4i+2], in[4i+1], in[4i]]` per pixel |
| ByteOrder.ExtractRgbaBe | src/darwin/byte_order.rs:19-22 | Big-endian `extract_rgba` as written returns its input |
| ByteOrder.ExtractRgbBeAt | src/darwin/byte_order.rs:39-47 | Big-endian `extract_rgb` drops exactly the bytes whose index is a multiple of 4, keeping order: output `k` is input `k + k / 3 + 1` |
| ByteOrder.ExtractRgbBeKeeps | src/darwin/byte_order.rs:39-47 | Every byte whose index is not a multiple of 4 is kept, at output `i - i / 4 - 1` |
| ByteOrder.HostMemoryAt | src/darwin/mod.rs:417-425 | The premultiplied-first, host-order context stores pixel `p`'s channels as the host word's bytes |
| ByteOrder.ExtractRgbaLeCorrect | src/darwin/byte_order.rs:4-17 | On a little-endian host, `extract_rgba` of the context yields the canonical RGBA buffer |
| ByteOrder.ExtractRgbLeCorrect | src/darwin/byte_order.rs:25-37 | On a little-endian host, `extract_rgb` yields the canonical RGB buffer |
| ByteOrder.ExtractRgbBeCorrect | src/darwin/byte_order.rs:39-47 | On a big-endian host, `extract_rgb` yields the canonical RGB buffer |
| ByteOrder.ExtractRgbaBeIsArgb | src/darwin/byte_order.rs:19-22 | On a big-endian host, `extract_rgba` as written yields ARGB, not RGBA: the pixel (a, r, g, b) = (1, 2, 3, 4) comes out `[1, 2, 3, 4]` instead of `[2, 3, 4, 1]` |
| ByteOrder.RotateAlphaPixelsAt | src/darwin/byte_order.rs:19-22 | The corrected extractor's channel `c` is byte `(c + 1) % 4` of the ARGB pixel |
| ByteOrder.ExtractRgbaBeFixedCorrect | src/darwin/byte_order.rs:19-22 | The corrected big-endian extractor yields the canonical RGBA buffer, the same as the little-endian extractor on the same pixels |
| DirectWrite.TextureTypeFor | src/directwrite/mod.rs:184-187 | Font smoothing 0 selects `Aliased1x1`, any other value `ClearType3x1` |
| DirectWrite.NormalizeBuffer | src/directwrite/mod.rs:156-169 | A ClearType texture is returned unchanged; an aliased one is triplicated |
| DirectWrite.AliasedTriplicates | src/directwrite/mod.rs:159-167 | The aliased result has length `3 * len`, with `out[3i] == out[3i+1] == out[3i+2] == in[i]` |
| DirectWrite.ToFontWeight | src/directwrite/mod.rs:326-333 | `Bold` is weight 700 and `Normal` is 400, both ways |
| DirectWrite.ToFontStyle | src/directwrite/mod.rs:335-343 | Each slant maps to its own style, both ways |
| DirectWrite.FontOf | src/directwrite/mod.rs:314-324 | The cached font keeps the face, family, weight, style and stretch |
| DirectWrite.FindFaceNamed | src/directwrite/mod.rs:254-271 | The `idx` loop finds the first font whose face name is the style, or stops at the count after that many misses |
| DirectWrite.DirectWriteRasterizer.constructor | src/directwrite/mod.rs:173-197 | No fonts, no keys, and the texture type chosen from the smoothing setting |
| DirectWrite.DirectWriteRasterizer.LoadFont | src/directwrite/mod.rs:237-279 | A known descriptor returns its key and changes nothing, whatever the size. A new descriptor fails, with `FontNotFound` and no key spent, exactly when its family is unknown or its `Specific` style names no face of the family. On success a fresh key maps the descriptor and the found font: the family's best match for a description, the first face with that name for a `Specific` style |
| DirectWrite.DirectWriteRasterizer.RasterizeGlyph | src/directwrite/mod.rs:56-112 | Returns `Rendered`: a render error is passed on; otherwise width, height, top and left come from the texture bounds and the buffer is the normalized texture |
| DirectWrite.DirectWriteRasterizer.Selection | src/directwrite/mod.rs:284-293 | The fallback is consulted only when the primary index is 0; the selected index is the fallback font's, or 0 without a fallback |
| DirectWrite.DirectWriteRasterizer.GetGlyph | src/directwrite/mod.rs:281-303 | An unknown key is `UnknownFontKey`. Otherwise the selected face and index are rendered: a render error is passed on, and the rendered glyph is returned in `Ok`, or inside `MissingGlyph` exactly when the final index is 0 |
| Darwin.EncodeUtf16 | src/darwin/mod.rs:482-488 | One unit for the basic plane, exactly two (a surrogate pair) above it |
| Darwin.Utf16RoundTrip | src/darwin/mod.rs:482-488 | Decoding undoes encoding, so distinct characters have distinct UTF-16 encodings |
| Darwin.GlyphIndexUtf16 | src/darwin/mod.rs:490-509 | The first glyph slot when the lookup succeeds, else 0 |
| Darwin.Plain | src/darwin/mod.rs:73-118 | `to_font(size, false)` builds a font with no fallbacks |
| Darwin.CascadeFonts | src/darwin/mod.rs:85-89 | At most one fallback per cascade descriptor, none with fallbacks of its own |
| Darwin.CascadeFontsMembers | src/darwin/mod.rs:85-89 | A font is a cascade fallback iff some cascade descriptor with a non-empty path gives it |
| Darwin.FindFontNamed | src/darwin/mod.rs:78-80 | The first Menlo descriptor named `Menlo-Regular`, or the count when none is |
| Darwin.FallbackList | src/darwin/mod.rs:81-110 | Menlo first; every fallback has none of its own |
| Darwin.ToFont | src/darwin/mod.rs:73-118 | Without fallbacks the list is empty. With them it is empty when Menlo-Regular is missing, else Menlo-Regular, the cascade fonts with a path and the first Apple Symbols font. Nesting depth is at most one |
| Darwin.FirstWithGlyph | src/darwin/mod.rs:167-172 | The first font of the chain with a non-zero index; all earlier ones miss |
| Darwin.ChooseGlyph | src/darwin/mod.rs:167-173 | The `find_map` over `[font] ++ fallbacks`: the first font with the glyph and its index, else the font itself with index 0; the index is 0 iff no font of the chain has the glyph |
| Darwin.BlankGlyph | src/darwin/mod.rs:406-415 | The blank glyph is `' '` with zero size and an empty RGB buffer |
| Darwin.RasterizeGlyph | src/darwin/mod.rs:389-480 | Returns `Drawn`: a drawing with no area gives the blank glyph. Otherwise the position and size come from the drawing, and the pixels are extracted as RGBA for colour fonts or RGB otherwise, for the host byte order |
| Darwin.Rasterizer.constructor | src/darwin/mod.rs:132-139 | No fonts, no keys |
| Darwin.Rasterizer.GetFont | src/darwin/mod.rs:190-239 | `FontNotFound` iff no descriptor of the family has the wanted style (the style name for `Specific`; bold iff `Bold` and italic iff the slant is not `Normal` for a description); otherwise the first such descriptor's font, with the fallbacks `to_font` builds |
| Darwin.Rasterizer.LoadFont | src/darwin/mod.rs:148-159 | A known (descriptor, scaled size) returns its key and inserts nothing. A miss fails, with `FontNotFound`, no change and no key spent, exactly when no descriptor of the family has the wanted style. Otherwise one fresh key goes into both maps, and it maps the first wanted descriptor's font with the fallbacks `to_font` builds |
| Darwin.Rasterizer.GetGlyph | src/darwin/mod.rs:162-182 | An unknown key is `UnknownFontKey`. The result is `MissingGlyph` exactly when no font of the chain has the glyph, and then holds the requested font's drawing of glyph 0. On success the chosen index is non-zero and the glyph is the chosen font's drawing of it |

## Left out

- Native calls are data or parameters:
  - FreeType glyph loading, rendering, emboldening and outline transforms (the rest of `get_glyph` in `src/ft/mod.rs`), and `FT_Select_Size`;
  - Fontconfig's sort, match, substitution and `render_prepare` (the sorted matches are a parameter of `GetFace`);
  - CoreText's drawing: the bounds and the context's bytes are each glyph's `Drawing`;
  - DirectWrite's glyph-run analysis and its system fallback.
- Floating point is not modelled:
  - all metrics, the 26.6 and 16.16 fixed-point conversions, `Size::new` and `as_f32_pts`, `em_size`, device-pixel-ratio scaling and kerning;
  - the CoreText scaled size is a parameter of `LoadFont`;
  - `update_dpr` is left out.
- FtDownsample: the `f64` factor is the rational `num / den`. `round` rounds halves up and `as usize` truncates; the `f64` rounding error is not modelled.
- FtDownsample: the `u32` channel sums are unbounded integers. With bitmaps below 2^24 pixels per rectangle they cannot overflow.
- The configuration reload timer in `load_font` (`RELOAD_DELAY`, `update_config`) is a wall-clock side effect.
- The OS settings are parameters:
  - `SystemParametersInfoA` smoothing becomes `useSmoothing`;
  - font smoothing and thin strokes on CoreText are left out;
  - the locale is left out, and the cascade list is the one for `"en"`, as the source hard-codes.
- The atomic ordering of `FontKey::next` is not modelled: the counter is a sequential allocator object.
- Formatting (`Debug`, `Display` of `Style`/`FontDesc`/`Error`) and the tests that need installed fonts are left out.
- `src/ft/fc/pattern.rs` is not part of this model. A pattern's hash is an opaque `u32`, and its properties are optional fields.
- FreeType `FaceLoadingProperties` fields `non_scalable`, `matrix` and `pixelsize_fixup_factor` are float values and are not kept. The `expect("has 1+ pixelsize")` panic is not modelled.
- FtNormalize.NormalizeBuffer: a pixel mode other than Mono, Gray, Lcd, LcdV and Bgra panics in the source; the model requires a handled mode. An out-of-bounds read panics too; the model requires readable rows.
- FtNormalize: the `bitmap.pixel_mode()?` error for an unknown FreeType mode is not modelled.
- FtNormalize: rows, widths and pitches are naturals. The `i32` casts of `rows()` and `width()` are not modelled.
- FtNormalize.LcdBgrFlatAt: a BGR row whose width is not a multiple of 3 reads a whole last triad past the row's width. This is stated for whole triads only, and the model requires those bytes to be readable.
- FtProps: the `LoadFlag` bit set is a record of the six flags the code can set. Bit positions are named in comments and not computed.
- FreeType.Lookup, FreeType.FreeTypeRasterizer.LoadFaceWithGlyph and FreeType.FreeTypeRasterizer.FaceForGlyph require a fallback list for the requested key unless its own face has the glyph. `load_face_with_glyph` unwraps that list (src/ft/mod.rs:445) and panics without it; a key from `load_font` always has one.
- FtDownsample.DownsampleBitmap: its requires `Downsamplable` excludes a negative width or height, which `as usize` would wrap (src/ft/mod.rs:599-600). It also requires a buffer covering every source rectangle, since an out-of-bounds `bitmap_buffer[offset]` panics (src/ft/mod.rs:632-635). A FreeType colour bitmap meets both.
- FreeType.LookupSettles: idempotence holds only under its hypothesis that a face loaded because its charset claims the character really has the glyph. Without it a second walk may step past that face to a later candidate.
- The FreeType walk returns a freshly loaded candidate without checking its glyph index, as the source does.
- DirectWrite and CoreText glyphs carry `advance == (0, 0)`: these backends' glyph struct has no advance field.
- Darwin.RasterizeGlyph: `floor`/`ceil` of the CoreText bounds are not modelled; the drawing's integer bounds are given.
- Darwin.RasterizeGlyph: on a big-endian host it uses the corrected extractor `ByteOrder.ExtractRgbaBeFixed` (see Findings).
- Darwin.Rasterizer.GetFont: the fonts `get_matching_face` builds with `to_font` for the descriptors it rejects are discarded, so the model builds them and states nothing about them. `get_specific_face` matches on the style name first and builds only the font it returns, and so does the model.
- Darwin.DescriptorsForFamily: the source panics when Menlo is not installed (`expect("Menlo exists")`); the model requires Menlo.

## Findings

| source | as written | input that shows it | evidently intended | confidence | as-written member | corrected member |
|---|---|---|---|---|---|---|
| src/darwin/byte_order.rs:19-22 | On big-endian hosts `extract_rgba` returns the bitmap context's bytes unchanged. The context is premultiplied-alpha-first in host order, so these bytes are ARGB. As written, the big-endian `extract_rgba` and `extract_rgb` also take `Vec<u8>` by value (lines 20 and 40) while src/darwin/mod.rs:467-469 passes `&rasterized_pixels`, so that build does not type-check. | One opaque pixel (a, r, g, b) = (1, 2, 3, 4) is stored as `[1, 2, 3, 4]` and returned as is, while RGBA is `[2, 3, 4, 1]` | Rotate each pixel from ARGB to RGBA, so both byte orders give the same canonical RGBA buffer | not executed | ByteOrder.ExtractRgbaBeIsArgb | ByteOrder.ExtractRgbaBeFixedCorrect |
