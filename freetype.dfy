/**
 * The FreeType backend's font-key and fallback logic (src/ft/mod.rs):
 * combining Fontconfig pattern hashes into font keys, the face loader that
 * caches loaded faces by key and native faces by file location, and the
 * rasterizer's fallback lists and lazy glyph-driven fallback walk.
 */
module FreeType {
  import opened Wrappers
  import opened Crossfont
  import opened Pixels
  import FtProps
  import Fc

  // ---------------------------------------------------------------------
  // Font keys from pattern hashes
  // ---------------------------------------------------------------------

  /** `u32::rotate_left(1)`: the top bit moves to the bottom. */
  function RotateLeft1(x: u32): (y: u32)
    ensures RotateRight1(y) == x
  {
    ((x as int % 0x8000_0000) * 2 + x as int / 0x8000_0000) as u32
  }

  /** `u32::rotate_right(1)`, the inverse rotation. */
  function RotateRight1(y: u32): u32 {
    (y as int / 2 + (y as int % 2) * 0x8000_0000) as u32
  }

  /** Bitwise exclusive or of the low `k` bits of `a` and `b`. */
  function XorBits(a: nat, b: nat, k: nat): (r: nat)
    ensures r < Pow2(k)
  {
    if k == 0 then 0 else 2 * XorBits(a / 2, b / 2, k - 1) + (a + b) % 2
  }

  /** Exclusive or with the same mask twice gives the value back. */
  lemma {:induction false} XorTwice(a: nat, r: nat, k: nat)
    requires a < Pow2(k)
    ensures XorBits(XorBits(a, r, k), r, k) == a
    decreases k
  {
    if k > 0 {
      var h := XorBits(a / 2, r / 2, k - 1);
      var bit := (a + r) % 2;
      var x := 2 * h + bit;
      assert XorBits(a, r, k) == x;
      HalfBelow(a, k);
      XorTwice(a / 2, r / 2, k - 1);
      DivMod2(h, bit, r, a);
      assert XorBits(x, r, k) == 2 * XorBits(x / 2, r / 2, k - 1) + (x + r) % 2;
    }
  }

  /** Halving a `k`-bit number leaves a `k - 1`-bit one. */
  lemma {:induction false} HalfBelow(a: nat, k: nat)
    requires k > 0 && a < Pow2(k)
    ensures a / 2 < Pow2(k - 1)
  {
    assert Pow2(k) == 2 * Pow2(k - 1);
  }

  /** `2 * h + bit` has half `h`, and xoring its low bit with `r`'s gives back `a`'s. */
  lemma {:induction false} DivMod2(h: nat, bit: nat, r: nat, a: nat)
    requires bit == (a + r) % 2
    ensures (2 * h + bit) / 2 == h
    ensures (2 * h + bit + r) % 2 == a % 2
    ensures a == 2 * (a / 2) + a % 2
  {
  }

  lemma {:induction false} Pow2Add(a: nat, b: nat)
    ensures Pow2(a + b) == Pow2(a) * Pow2(b)
  {
    if b > 0 {
      Pow2Add(a, b - 1);
      assert Pow2(a + b) == 2 * Pow2(a + b - 1);
    }
  }

  /** Eight more bits multiply by 256. */
  lemma {:induction false} Pow2Plus8(a: nat)
    ensures Pow2(a + 8) == 256 * Pow2(a)
  {
    Pow2Add(a, 8);
    assert Pow2(8) == 256;
  }

  lemma {:induction false} Pow2Of32()
    ensures Pow2(32) == U32_MODULUS
  {
    Pow2Plus8(0);
    Pow2Plus8(8);
    Pow2Plus8(16);
    Pow2Plus8(24);
  }

  /** `u32 ^ u32`. */
  function Xor(a: u32, b: u32): u32 {
    Pow2Of32();
    XorBits(a as nat, b as nat, 32) as u32
  }

  /** Exclusive or is undone by the same operand. */
  lemma {:induction false} XorCancel(a: u32, b: u32)
    ensures Xor(Xor(a, b), b) == a
  {
    Pow2Of32();
    XorTwice(a as nat, b as nat, 32);
  }

  /**
   * `FontKey::from_pattern_hashes`: the requested pattern's hash rotated left
   * by one, exclusive-or the matched pattern's hash.  The requested hash can
   * be recovered from the key and the matched hash.
   */
  function FromPatternHashes(lhs: u32, rhs: u32): (k: FontKey)
    ensures RotateRight1(Xor(k.token, rhs)) == lhs
  {
    XorCancel(RotateLeft1(lhs), rhs);
    FontKey(Xor(RotateLeft1(lhs), rhs))
  }

  /** For a fixed matched pattern, distinct requests give distinct keys. */
  lemma {:induction false} FromPatternHashesInjective(lhs1: u32, lhs2: u32, rhs: u32)
    ensures FromPatternHashes(lhs1, rhs) == FromPatternHashes(lhs2, rhs) <==> lhs1 == lhs2
  {
    if FromPatternHashes(lhs1, rhs) == FromPatternHashes(lhs2, rhs) {
      calc {
        lhs1;
        RotateRight1(Xor(FromPatternHashes(lhs1, rhs).token, rhs));
        RotateRight1(Xor(FromPatternHashes(lhs2, rhs).token, rhs));
        lhs2;
      }
    }
  }

  // ---------------------------------------------------------------------
  // Loaded faces
  // ---------------------------------------------------------------------

  /** The error FreeType reports for a font file it cannot open. */
  const OPEN_FAILED: string := "cannot open resource"

  /** FreeType reports a glyph it does not have as index 0 (`.notdef`). */
  const MISSING_GLYPH_INDEX: nat := 0

  /**
   * A native FreeType face, as the backend observes it: its character map
   * (`get_char_index`), whether it has colour and whether it is scalable.
   */
  datatype NativeFace = NativeFace(glyphs: map<char, nat>, hasColor: bool, scalable: bool)

  /**
   * `FaceLoadingProperties`: the loading properties of a face and the native
   * face it shares, identified by its file location.
   */
  datatype Face = Face(
    location: FtProps.Location,
    ftFace: NativeFace,
    loadFlags: FtProps.LoadFlags,
    renderMode: FtProps.RenderMode,
    lcdFilter: nat,
    coloredBitmap: bool,
    embolden: bool,
    rgba: Fc.Rgba)

  /** The properties `face_from_pattern` derives from a pattern and its native face. */
  function FaceFor(p: FtProps.Pattern, loc: FtProps.Location, ft: NativeFace): (face: Face)
    ensures face.location == loc && face.ftFace == ft
    ensures face.coloredBitmap <==> ft.hasColor && !ft.scalable
    ensures face.loadFlags.color <==> FtProps.Color(p)
  {
    Face(
      loc, ft,
      FtProps.FtLoadFlags(p),
      FtProps.RenderModeFor(p),
      FtProps.LcdFilterFor(p),
      ft.hasColor && !ft.scalable,
      FtProps.Embolden(p),
      FtProps.Subpixel(p))
  }

  /**
   * `FreeTypeLoader`: loaded faces by font key, and native faces by file
   * location so that faces of one file share one native face.  `library`
   * stands for the font files `FT_New_Face` can open.
   */
  class FreeTypeLoader {
    const library: map<FtProps.Location, NativeFace>
    var faces: map<FontKey, Face>
    var ftFaces: map<FtProps.Location, NativeFace>

    /**
     * Every cached native face is the one its file holds, and every loaded
     * face uses the cached native face of its location.
     */
    ghost predicate Valid()
      reads this
    {
      (forall loc :: loc in ftFaces ==> loc in library && ftFaces[loc] == library[loc])
      && (forall k :: k in faces ==> faces[k].location in ftFaces && faces[k].ftFace == ftFaces[faces[k].location])
    }

    constructor (library: map<FtProps.Location, NativeFace>)
      ensures Valid()
      ensures this.library == library && faces == map[] && ftFaces == map[]
    {
      this.library := library;
      faces := map[];
      ftFaces := map[];
    }

    /** `load_ft_face`: open the file and cache its native face under the location. */
    method LoadFtFace(loc: FtProps.Location) returns (r: Result<NativeFace, Error>)
      requires Valid()
      modifies this
      ensures Valid()
      ensures faces == old(faces)
      ensures loc in library ==> r == Ok(library[loc]) && ftFaces == old(ftFaces)[loc := library[loc]]
      ensures loc !in library ==> r == Err(PlatformError(OPEN_FAILED)) && ftFaces == old(ftFaces)
    {
      if loc !in library {
        return Err(PlatformError(OPEN_FAILED));
      }
      var ft := library[loc];
      ftFaces := ftFaces[loc := ft];
      r := Ok(ft);
    }

    /**
     * `face_from_pattern`: nothing to load without a file location; a key
     * already loaded is returned as it is; otherwise the native face is
     * taken from the location cache or opened, and the face is inserted
     * under the requested key only.
     */
    method FaceFromPattern(p: FtProps.Pattern, key: FontKey) returns (r: Result<Option<FontKey>, Error>)
      requires Valid()
      modifies this
      ensures Valid()
      ensures p.location.None? ==> r == Ok(None) && faces == old(faces) && ftFaces == old(ftFaces)
      ensures p.location.Some? && key in old(faces) ==>
                r == Ok(Some(key)) && faces == old(faces) && ftFaces == old(ftFaces)
      ensures p.location.Some? && key !in old(faces) && p.location.value in old(ftFaces) ==>
                var loc := p.location.value;
                r == Ok(Some(key)) && ftFaces == old(ftFaces)
                && faces == old(faces)[key := FaceFor(p, loc, old(ftFaces)[loc])]
      ensures p.location.Some? && key !in old(faces) && p.location.value !in old(ftFaces) ==>
                var loc := p.location.value;
                if loc in library then
                  r == Ok(Some(key)) && ftFaces == old(ftFaces)[loc := library[loc]]
                  && faces == old(faces)[key := FaceFor(p, loc, library[loc])]
                else
                  r == Err(PlatformError(OPEN_FAILED)) && faces == old(faces) && ftFaces == old(ftFaces)
    {
      if p.location.None? {
        return Ok(None);
      }
      var loc := p.location.value;
      if key in faces {
        return Ok(Some(key));
      }
      var ft: NativeFace;
      if loc in ftFaces {
        ft := ftFaces[loc];
      } else {
        var loaded := LoadFtFace(loc);
        if loaded.Err? {
          return Err(loaded.error);
        }
        ft := loaded.value;
      }
      faces := faces[key := FaceFor(p, loc, ft)];
      r := Ok(Some(key));
    }

    /**
     * One candidate of the fallback walk: a loaded face ends the walk when
     * it has the glyph; an unloaded one is loaded only when its own charset
     * claims the character, and ends the walk when it loads or fails to.
     */
    method TryCandidate(f: FallbackFont, c: char) returns (stop: bool, r: Result<FontKey, Error>)
      requires Valid()
      modifies this
      ensures Valid()
      ensures stop <==> VisitOf(old(faces), library, c, f) != Skip
      ensures VisitOf(old(faces), library, c, f) == Fail ==> r == Err(PlatformError(OPEN_FAILED))
      ensures VisitOf(old(faces), library, c, f) in {Hit, Load} ==> r == Ok(f.key)
      ensures VisitOf(old(faces), library, c, f) == Load ==>
                var loc := f.pattern.location.value;
                faces == old(faces)[f.key := FaceFor(f.pattern, loc, library[loc])]
                && ftFaces == old(ftFaces)[loc := library[loc]]
      ensures VisitOf(old(faces), library, c, f) != Load ==> faces == old(faces) && ftFaces == old(ftFaces)
    {
      if f.key in faces {
        if CharIndex(faces[f.key].ftFace.glyphs, c) != MISSING_GLYPH_INDEX {
          return true, Ok(f.key);
        }
      } else if c in Charset(f.pattern) {
        var loaded := FaceFromPattern(f.pattern, f.key);
        if loaded.Err? {
          return true, Err(loaded.error);
        }
        if loaded.value.Some? {
          return true, Ok(loaded.value.value);
        }
      }
      return false, Ok(f.key);
    }
  }

  // ---------------------------------------------------------------------
  // Fallback lists
  // ---------------------------------------------------------------------

  /** A fallback candidate: its render-prepared pattern and its font key. */
  datatype FallbackFont = FallbackFont(pattern: FtProps.Pattern, key: FontKey)

  /** The candidates in Fontconfig's sort order, and the union of their charsets. */
  datatype FallbackList = FallbackList(list: seq<FallbackFont>, coverage: set<char>)

  /**
   * One font of Fontconfig's sorted match list: the pattern as sorted, whose
   * charset is read, and the pattern `render_prepare` makes of it, which is
   * hashed and kept.
   */
  datatype Match = Match(sorted: FtProps.Pattern, prepared: FtProps.Pattern)

  /** The characters a pattern claims; none when it has no charset. */
  function Charset(p: FtProps.Pattern): set<char> {
    p.charset.GetOr({})
  }

  /** The fallback candidate made of a match for the requested pattern's hash. */
  function Candidate(hash: u32, m: Match): (f: FallbackFont)
    ensures f.pattern == m.prepared
  {
    FallbackFont(m.prepared, FromPatternHashes(hash, m.prepared.hash))
  }

  /** The candidates of some matches, in their order. */
  function Candidates(hash: u32, ms: seq<Match>): (fs: seq<FallbackFont>)
    ensures |fs| == |ms|
    ensures forall i :: 0 <= i < |ms| ==> fs[i] == Candidate(hash, ms[i])
  {
    if |ms| == 0 then [] else Candidates(hash, ms[..|ms| - 1]) + [Candidate(hash, ms[|ms| - 1])]
  }

  /** The union of the matches' charsets. */
  function Coverage(ms: seq<Match>): set<char> {
    if |ms| == 0 then {} else Coverage(ms[..|ms| - 1]) + Charset(ms[|ms| - 1].sorted)
  }

  /** A character is covered exactly when some match's charset has it. */
  lemma {:induction false} CoverageIsUnion(ms: seq<Match>, c: char)
    ensures c in Coverage(ms) <==> exists i :: 0 <= i < |ms| && c in Charset(ms[i].sorted)
  {
    if |ms| > 0 {
      var init := ms[..|ms| - 1];
      CoverageIsUnion(init, c);
      if c in Coverage(init) {
        var i :| 0 <= i < |init| && c in Charset(init[i].sorted);
        assert ms[i] == init[i];
      }
      if exists i :: 0 <= i < |ms| && c in Charset(ms[i].sorted) {
        var i :| 0 <= i < |ms| && c in Charset(ms[i].sorted);
        if i < |init| {
          assert init[i] == ms[i];
        }
      }
    }
  }

  /** The fallback list `get_face` builds from the matches after the primary one. */
  function FallbackListOf(hash: u32, ms: seq<Match>): FallbackList {
    FallbackList(Candidates(hash, ms), Coverage(ms))
  }

  /** The `matched_fonts.map(..).collect()` loop, merging each charset into the coverage. */
  method BuildFallbackList(hash: u32, ms: seq<Match>) returns (fl: FallbackList)
    ensures fl == FallbackListOf(hash, ms)
  {
    var list: seq<FallbackFont> := [];
    var coverage: set<char> := {};
    var i := 0;
    while i < |ms|
      invariant 0 <= i <= |ms|
      invariant list == Candidates(hash, ms[..i])
      invariant coverage == Coverage(ms[..i])
    {
      assert ms[..i + 1][..i] == ms[..i];
      coverage := coverage + Charset(ms[i].sorted);
      list := list + [Candidate(hash, ms[i])];
      i := i + 1;
    }
    assert ms[..i] == ms;
    fl := FallbackList(list, coverage);
  }

  // ---------------------------------------------------------------------
  // The fallback walk
  // ---------------------------------------------------------------------

  /** What `load_face_with_glyph` makes of one candidate. */
  datatype Visit =
    | Hit    // already loaded, and has the glyph
    | Skip   // loaded without the glyph, or unloaded and not worth loading
    | Load   // unloaded, claims the glyph, and its file opens
    | Fail   // unloaded, claims the glyph, and its file does not open

  /**
   * A candidate is loaded only when its own charset claims the character
   * and it has a file location; a pattern without a charset claims nothing.
   */
  function VisitOf(faces: map<FontKey, Face>, library: map<FtProps.Location, NativeFace>, c: char, f: FallbackFont): Visit {
    if f.key in faces then
      if CharIndex(faces[f.key].ftFace.glyphs, c) != MISSING_GLYPH_INDEX then Hit else Skip
    else if c !in Charset(f.pattern) || f.pattern.location.None? then Skip
    else if f.pattern.location.value in library then Load
    else Fail
  }

  /** The first candidate from `i` on that ends the walk, or `|list|` when none does. */
  function FirstDecisive(faces: map<FontKey, Face>, library: map<FtProps.Location, NativeFace>, c: char,
                         list: seq<FallbackFont>, i: nat): (j: nat)
    requires i <= |list|
    ensures i <= j <= |list|
    ensures forall t :: i <= t < j ==> VisitOf(faces, library, c, list[t]) == Skip
    ensures j < |list| ==> VisitOf(faces, library, c, list[j]) != Skip
    decreases |list| - i
  {
    if i == |list| || VisitOf(faces, library, c, list[i]) != Skip then i
    else FirstDecisive(faces, library, c, list, i + 1)
  }

  /** The candidate the walk stops at, if the character is covered and one does. */
  function Decisive(faces: map<FontKey, Face>, library: map<FtProps.Location, NativeFace>, c: char, fl: FallbackList): Option<nat> {
    if c !in fl.coverage then None
    else
      var j := FirstDecisive(faces, library, c, fl.list, 0);
      if j == |fl.list| then None else Some(j)
  }

  /**
   * What `load_face_with_glyph` returns: the primary key when the character
   * is outside the coverage or no candidate decides, else the deciding
   * candidate's key, or the error of opening its file.
   */
  function Walk(faces: map<FontKey, Face>, library: map<FtProps.Location, NativeFace>, c: char,
                fl: FallbackList, primary: FontKey): (r: Result<FontKey, Error>)
    ensures r.Ok? ==> r.value == primary || exists i :: 0 <= i < |fl.list| && fl.list[i].key == r.value
    ensures c !in fl.coverage ==> r == Ok(primary)
  {
    match Decisive(faces, library, c, fl)
    case None => Ok(primary)
    case Some(j) =>
      if VisitOf(faces, library, c, fl.list[j]) == Fail then Err(PlatformError(OPEN_FAILED))
      else Ok(fl.list[j].key)
  }

  /** The faces after the walk: the deciding candidate's face added when it is loaded. */
  function FacesAfterWalk(faces: map<FontKey, Face>, library: map<FtProps.Location, NativeFace>, c: char,
                          fl: FallbackList): map<FontKey, Face> {
    match Decisive(faces, library, c, fl)
    case None => faces
    case Some(j) =>
      var f := fl.list[j];
      if VisitOf(faces, library, c, f) == Load then
        var loc := f.pattern.location.value;
        faces[f.key := FaceFor(f.pattern, loc, library[loc])]
      else faces
  }

  /** The native-face cache after the walk. */
  function FtFacesAfterWalk(faces: map<FontKey, Face>, ftFaces: map<FtProps.Location, NativeFace>,
                            library: map<FtProps.Location, NativeFace>, c: char, fl: FallbackList): map<FtProps.Location, NativeFace> {
    match Decisive(faces, library, c, fl)
    case None => ftFaces
    case Some(j) =>
      var f := fl.list[j];
      if VisitOf(faces, library, c, f) == Load then
        var loc := f.pattern.location.value;
        ftFaces[loc := library[loc]]
      else ftFaces
  }

  /** A covered walk that has skipped the candidates before `i` stops at a non-skipped `i`. */
  lemma WalkStopsAt(faces: map<FontKey, Face>, library: map<FtProps.Location, NativeFace>, c: char,
                    fl: FallbackList, i: nat)
    requires c in fl.coverage && i < |fl.list|
    requires FirstDecisive(faces, library, c, fl.list, 0) == FirstDecisive(faces, library, c, fl.list, i)
    requires VisitOf(faces, library, c, fl.list[i]) != Skip
    ensures Decisive(faces, library, c, fl) == Some(i)
  {
  }

  /** A covered walk that has skipped every candidate decides nothing. */
  lemma WalkRunsOut(faces: map<FontKey, Face>, library: map<FtProps.Location, NativeFace>, c: char,
                    fl: FallbackList)
    requires c in fl.coverage
    requires FirstDecisive(faces, library, c, fl.list, 0) == FirstDecisive(faces, library, c, fl.list, |fl.list|)
    ensures Decisive(faces, library, c, fl).None?
  {
  }

  /**
   * The walk loads at most one face, and only a candidate of the list whose
   * own charset claims the character.
   */
  lemma {:induction false} WalkLoadsOnlyClaimingCandidates(faces: map<FontKey, Face>, library: map<FtProps.Location, NativeFace>,
                                        c: char, fl: FallbackList, k: FontKey)
    requires k in FacesAfterWalk(faces, library, c, fl) && k !in faces
    ensures exists i :: 0 <= i < |fl.list| && fl.list[i].key == k && c in Charset(fl.list[i].pattern)
    ensures FacesAfterWalk(faces, library, c, fl).Keys == faces.Keys + {k}
  {
    var j := Decisive(faces, library, c, fl).value;
    assert fl.list[j].key == k;
  }

  /** Whether the requested face itself has the glyph. */
  predicate PrimaryHit(faces: map<FontKey, Face>, g: GlyphKey) {
    g.fontKey in faces && CharIndex(faces[g.fontKey].ftFace.glyphs, g.character) != MISSING_GLYPH_INDEX
  }

  /** `face_for_glyph`: the requested face when it has the glyph, else the walk's key or, on error, the requested one. */
  function Lookup(faces: map<FontKey, Face>, library: map<FtProps.Location, NativeFace>,
                  lists: map<FontKey, FallbackList>, g: GlyphKey): (k: FontKey)
    requires PrimaryHit(faces, g) || g.fontKey in lists
    ensures PrimaryHit(faces, g) ==> k == g.fontKey
    ensures !PrimaryHit(faces, g) && g.character !in lists[g.fontKey].coverage ==> k == g.fontKey
    ensures k == g.fontKey || (g.fontKey in lists && exists i :: 0 <= i < |lists[g.fontKey].list| && lists[g.fontKey].list[i].key == k)
  {
    if PrimaryHit(faces, g) then g.fontKey
    else
      match Walk(faces, library, g.character, lists[g.fontKey], g.fontKey)
      case Ok(k) => k
      case Err(_) => g.fontKey
  }

  /** The faces after `face_for_glyph`. */
  function FacesAfterLookup(faces: map<FontKey, Face>, library: map<FtProps.Location, NativeFace>,
                            lists: map<FontKey, FallbackList>, g: GlyphKey): map<FontKey, Face>
    requires PrimaryHit(faces, g) || g.fontKey in lists
  {
    if PrimaryHit(faces, g) then faces else FacesAfterWalk(faces, library, g.character, lists[g.fontKey])
  }

  /**
   * After a walk loaded a face, the walk only finds the same key again
   * (without loading) as long as each earlier candidate stays decided the
   * same way: this steps past the candidates before the loaded one.
   */
  lemma {:induction false} WalkAfterLoad(faces: map<FontKey, Face>, library: map<FtProps.Location, NativeFace>,
                                         c: char, list: seq<FallbackFont>, i: nat, j: nat, face: Face)
    requires i <= j < |list|
    requires forall t :: i <= t < j ==> VisitOf(faces, library, c, list[t]) == Skip
    requires VisitOf(faces, library, c, list[j]) == Load
    requires CharIndex(face.ftFace.glyphs, c) != MISSING_GLYPH_INDEX
    ensures var j2 := FirstDecisive(faces[list[j].key := face], library, c, list, i);
            j2 <= j && list[j2].key == list[j].key
            && VisitOf(faces[list[j].key := face], library, c, list[j2]) == Hit
    decreases j - i
  {
    var after := faces[list[j].key := face];
    if list[i].key == list[j].key {
      assert VisitOf(after, library, c, list[i]) == Hit;
    } else {
      assert VisitOf(after, library, c, list[i]) == VisitOf(faces, library, c, list[i]);
      WalkAfterLoad(faces, library, c, list, i + 1, j, face);
    }
  }

  /**
   * Repeating `face_for_glyph`, when the face the first call loaded (if any)
   * really has the glyph its charset claims, returns the same key and loads
   * nothing: the first call's load is a cache hit the second time.
   */
  lemma {:induction false} LookupSettles(faces: map<FontKey, Face>, library: map<FtProps.Location, NativeFace>,
                      lists: map<FontKey, FallbackList>, g: GlyphKey)
    requires g.fontKey in lists
    requires var after := FacesAfterLookup(faces, library, lists, g);
             forall k :: k in after && k !in faces ==> CharIndex(after[k].ftFace.glyphs, g.character) != MISSING_GLYPH_INDEX
    ensures var after := FacesAfterLookup(faces, library, lists, g);
            Lookup(after, library, lists, g) == Lookup(faces, library, lists, g)
            && FacesAfterLookup(after, library, lists, g) == after
  {
    var c := g.character;
    var fl := lists[g.fontKey];
    var after := FacesAfterLookup(faces, library, lists, g);
    if !PrimaryHit(faces, g) && Decisive(faces, library, c, fl).Some? {
      var j := Decisive(faces, library, c, fl).value;
      var f := fl.list[j];
      if VisitOf(faces, library, c, f) == Load {
        var loc := f.pattern.location.value;
        var face := FaceFor(f.pattern, loc, library[loc]);
        assert after == faces[f.key := face];
        assert f.key in after && f.key !in faces;
        if f.key != g.fontKey {
          WalkSettlesAfterLoad(faces, library, c, fl, g.fontKey, j, face);
        }
      }
    }
  }

  /**
   * The key `face_for_glyph` returns always has a loaded face afterwards, so
   * `get_glyph` can look it up: the primary face is loaded, a hit is, and a
   * load inserts the key it returns.
   */
  lemma {:induction false} LookupKeyLoaded(faces: map<FontKey, Face>, library: map<FtProps.Location, NativeFace>,
                                           lists: map<FontKey, FallbackList>, g: GlyphKey)
    requires g.fontKey in faces && g.fontKey in lists
    ensures Lookup(faces, library, lists, g) in FacesAfterLookup(faces, library, lists, g)
  {
    if !PrimaryHit(faces, g) {
      var fl := lists[g.fontKey];
      match Decisive(faces, library, g.character, fl)
      case None =>
      case Some(j) =>
        assert VisitOf(faces, library, g.character, fl.list[j]) != Skip;
    }
  }

  /** A walk that loaded a face with the glyph finds that face again and loads nothing. */
  lemma {:induction false} WalkSettlesAfterLoad(faces: map<FontKey, Face>, library: map<FtProps.Location, NativeFace>,
                                                c: char, fl: FallbackList, primary: FontKey, j: nat, face: Face)
    requires Decisive(faces, library, c, fl) == Some(j)
    requires VisitOf(faces, library, c, fl.list[j]) == Load
    requires CharIndex(face.ftFace.glyphs, c) != MISSING_GLYPH_INDEX
    ensures var after := faces[fl.list[j].key := face];
            Walk(after, library, c, fl, primary) == Ok(fl.list[j].key)
            && FacesAfterWalk(after, library, c, fl) == after
  {
    var after := faces[fl.list[j].key := face];
    WalkAfterLoad(faces, library, c, fl.list, 0, j, face);
    var j2 := FirstDecisive(after, library, c, fl.list, 0);
    assert Decisive(after, library, c, fl) == Some(j2);
  }

  // ---------------------------------------------------------------------
  // The rasterizer
  // ---------------------------------------------------------------------

  /**
   * `FreeTypeRasterizer`: the face loader and the fallback list of every
   * primary font key.
   */
  class FreeTypeRasterizer {
    const loader: FreeTypeLoader
    var fallbackLists: map<FontKey, FallbackList>

    /** Every primary key with a fallback list has its face loaded. */
    ghost predicate Valid()
      reads this, loader
    {
      loader.Valid() && fallbackLists.Keys <= loader.faces.Keys
    }

    constructor (library: map<FtProps.Location, NativeFace>)
      ensures Valid() && fresh(loader)
      ensures loader.library == library && loader.faces == map[] && loader.ftFaces == map[]
      ensures fallbackLists == map[]
    {
      loader := new FreeTypeLoader(library);
      fallbackLists := map[];
    }

    /**
     * `get_face`, given the hash of the requested pattern and Fontconfig's
     * sorted matches for it (absent when the sort fails).  The first match is
     * the primary font: its key combines the two hashes.  A key with a
     * fallback list already is returned as it is; otherwise the primary face
     * is loaded if need be, and the remaining matches become its fallback
     * list.
     */
    method GetFace(desc: FontDesc, hash: u32, sorted: Option<seq<Match>>) returns (r: Result<FontKey, Error>)
      requires Valid()
      modifies this, loader
      ensures Valid()
      ensures sorted.None? || |sorted.value| == 0 ==>
                r == Err(FontNotFound(desc)) && fallbackLists == old(fallbackLists)
                && loader.faces == old(loader.faces) && loader.ftFaces == old(loader.ftFaces)
      ensures sorted.Some? && |sorted.value| > 0 ==>
                var primary := sorted.value[0].prepared;
                var key := FromPatternHashes(hash, primary.hash);
                var loaded := key in old(loader.faces);
                var loc := primary.location;
                var opens := loaded || (loc.Some? && loc.value in loader.library);
                // the cache: an existing list is returned untouched
                (key in old(fallbackLists) ==>
                   r == Ok(key) && fallbackLists == old(fallbackLists)
                   && loader.faces == old(loader.faces) && loader.ftFaces == old(loader.ftFaces))
                && (key !in old(fallbackLists) && opens ==>
                   r == Ok(key)
                   && fallbackLists == old(fallbackLists)[key := FallbackListOf(hash, sorted.value[1..])]
                   && loader.faces == (if loaded then old(loader.faces)
                                       else old(loader.faces)[key := FaceFor(primary, loc.value, loader.library[loc.value])])
                   && loader.ftFaces == (if loaded then old(loader.ftFaces)
                                         else old(loader.ftFaces)[loc.value := loader.library[loc.value]]))
                && (key !in old(fallbackLists) && !opens ==>
                   (if loc.None? then r == Err(FontNotFound(desc)) else r == Err(PlatformError(OPEN_FAILED)))
                   && fallbackLists == old(fallbackLists)
                   && loader.faces == old(loader.faces) && loader.ftFaces == old(loader.ftFaces))
    {
      if sorted.None? || |sorted.value| == 0 {
        return Err(FontNotFound(desc));
      }
      var primary := sorted.value[0].prepared;
      var key := FromPatternHashes(hash, primary.hash);
      if key in fallbackLists {
        return Ok(key);
      }
      if key !in loader.faces {
        var loaded := loader.FaceFromPattern(primary, key);
        if loaded.Err? {
          return Err(loaded.error);
        }
        if loaded.value.None? {
          return Err(FontNotFound(desc));
        }
      }
      var fl := BuildFallbackList(hash, sorted.value[1..]);
      fallbackLists := fallbackLists[key := fl];
      r := Ok(key);
    }

    /**
     * `load_face_with_glyph`: the walk over the requested key's fallback
     * list.  It returns what `Walk` says, visits each candidate at most once
     * (`checks` counts the coverage test and the candidates visited), and
     * changes the loader only by loading the deciding candidate.
     */
    method LoadFaceWithGlyph(g: GlyphKey) returns (r: Result<FontKey, Error>, ghost checks: nat)
      requires Valid() && g.fontKey in fallbackLists
      modifies loader
      ensures Valid()
      ensures r == Walk(old(loader.faces), loader.library, g.character, fallbackLists[g.fontKey], g.fontKey)
      ensures loader.faces == FacesAfterWalk(old(loader.faces), loader.library, g.character, fallbackLists[g.fontKey])
      ensures loader.ftFaces
           == FtFacesAfterWalk(old(loader.faces), old(loader.ftFaces), loader.library, g.character, fallbackLists[g.fontKey])
      ensures checks <= |fallbackLists[g.fontKey].list| + 1
    {
      var c := g.character;
      var fl := fallbackLists[g.fontKey];
      checks := 1;
      if c !in fl.coverage {
        return Ok(g.fontKey), checks;
      }
      ghost var faces0 := loader.faces;
      var i := 0;
      while i < |fl.list|
        invariant 0 <= i <= |fl.list|
        invariant loader.Valid() && loader.faces == faces0 && loader.ftFaces == old(loader.ftFaces)
        invariant FirstDecisive(faces0, loader.library, c, fl.list, 0) == FirstDecisive(faces0, loader.library, c, fl.list, i)
        invariant checks == i + 1
      {
        var f := fl.list[i];
        checks := checks + 1;
        var stop, res := loader.TryCandidate(f, c);
        if stop {
          WalkStopsAt(faces0, loader.library, c, fl, i);
          return res, checks;
        }
        i := i + 1;
      }
      WalkRunsOut(faces0, loader.library, c, fl);
      r := Ok(g.fontKey);
    }

    /**
     * `face_for_glyph`: the requested key when its face has the glyph,
     * otherwise the fallback walk's key, or the requested key when the walk
     * fails.
     */
    method FaceForGlyph(g: GlyphKey) returns (key: FontKey)
      requires Valid()
      requires PrimaryHit(loader.faces, g) || g.fontKey in fallbackLists
      modifies loader
      ensures Valid()
      ensures key == Lookup(old(loader.faces), loader.library, fallbackLists, g)
      ensures loader.faces == FacesAfterLookup(old(loader.faces), loader.library, fallbackLists, g)
      ensures PrimaryHit(old(loader.faces), g) ==> loader.faces == old(loader.faces) && loader.ftFaces == old(loader.ftFaces)
      ensures !PrimaryHit(old(loader.faces), g) ==>
                loader.ftFaces == FtFacesAfterWalk(old(loader.faces), old(loader.ftFaces), loader.library, g.character, fallbackLists[g.fontKey])
      ensures key in loader.faces
    {
      if g.fontKey in loader.faces {
        var index := CharIndex(loader.faces[g.fontKey].ftFace.glyphs, g.character);
        if index != MISSING_GLYPH_INDEX {
          return g.fontKey;
        }
      }
      LookupKeyLoaded(loader.faces, loader.library, fallbackLists, g);
      var r, _ := LoadFaceWithGlyph(g);
      key := if r.Ok? then r.value else g.fontKey;
    }
  }
}
