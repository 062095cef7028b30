/**
 * The font family of src/editor/font.cpp: parsing Neovim's `guifont`
 * option ("Name1,Name2:h14:w7:b:i"), building one font set per listed
 * name with bold/italic variants that share the normal font when they
 * resolve to the same file, picking the variant for a styled glyph, and
 * rebuilding the sets for a new display scale. Looking fonts up by name,
 * number conversion and glyph rasterisation are calls into other code and
 * are parameters here.
 */
module Fonts {
  import opened Wrappers

  /* ---------- std::views::split ---------- */

  /** Index of the first `d` in `s`. */
  function Find(s: string, d: char): (i: nat)
    requires d in s
    ensures i < |s| && s[i] == d && d !in s[..i]
  {
    if s[0] == d then 0
    else
      var j := Find(s[1..], d);
      assert s[..j + 1] == [s[0]] + s[1..][..j];
      j + 1
  }

  /** The pieces of `s` between occurrences of `d`, empty ones included. */
  function Pieces(s: string, d: char): (ps: seq<string>)
    ensures |ps| > 0
    decreases |s|
  {
    if d in s then [s[..Find(s, d)]] + Pieces(s[Find(s, d) + 1..], d) else [s]
  }

  /** `std::views::split(s, d)`: the pieces between delimiters; the empty string has none. */
  function Split(s: string, d: char): seq<string> {
    if s == [] then [] else Pieces(s, d)
  }

  /** The pieces glued back together with `d` between them. */
  function Join(ps: seq<string>, d: char): string
    requires |ps| > 0
  {
    if |ps| == 1 then ps[0] else ps[0] + [d] + Join(ps[1..], d)
  }

  /** Splitting loses nothing: joining the pieces gives back the string. */
  lemma {:induction false} JoinPieces(s: string, d: char)
    ensures Join(Pieces(s, d), d) == s
    decreases |s|
  {
    if d in s {
      var i := Find(s, d);
      JoinPieces(s[i + 1..], d);
      assert s == s[..i] + [d] + s[i + 1..];
    }
  }

  /** No piece contains the delimiter. */
  lemma {:induction false} PiecesHaveNoDelimiter(s: string, d: char)
    ensures forall k :: 0 <= k < |Pieces(s, d)| ==> d !in Pieces(s, d)[k]
    decreases |s|
  {
    if d in s {
      PiecesHaveNoDelimiter(s[Find(s, d) + 1..], d);
    }
  }

  /** Joining pieces free of the delimiter and splitting again gives the pieces back. */
  lemma {:induction false} PiecesOfJoin(ps: seq<string>, d: char)
    requires |ps| > 0 && forall k :: 0 <= k < |ps| ==> d !in ps[k]
    ensures Pieces(Join(ps, d), d) == ps
  {
    if |ps| > 1 {
      var s := Join(ps, d);
      var rest := Join(ps[1..], d);
      assert s == ps[0] + ([d] + rest);
      assert s[|ps[0]|] == d;
      assert s[..|ps[0]|] == ps[0];
      assert Find(s, d) == |ps[0]|;
      assert s[|ps[0]| + 1..] == rest;
      PiecesOfJoin(ps[1..], d);
    }
  }

  /* ---------- guifont option parsing ---------- */

  /** What the guifont option asks for: the font list and the size and style options. */
  datatype Guifont = Guifont(fonts: string, height: real, width: real, bold: bool, italic: bool)

  /** Before any option is seen: no font list, height 12, width 0, no bold, no italic. */
  const Defaults := Guifont("", 12.0, 0.0, false, false)

  predicate StartsWith(t: string, c: char) { |t| > 0 && t[0] == c }

  /** An `h`/`w` option whose number does not convert. */
  predicate Bad(t: string, toFloat: string -> Option<real>) {
    (StartsWith(t, 'h') || StartsWith(t, 'w')) && toFloat(t[1..]).None?
  }

  function BadMessage(t: string): string
    requires StartsWith(t, 'h') || StartsWith(t, 'w')
  {
    if t[0] == 'h' then "Invalid guifont height: " + t else "Invalid guifont width: " + t
  }

  /** One iteration of the token loop. */
  function Step(st: Guifont, t: string, toFloat: string -> Option<real>): Result<Guifont, string> {
    if t == [] then Ok(st)
    else if st.fonts == [] then Ok(st.(fonts := t))
    else if t[0] == 'h' then
      match toFloat(t[1..])
      case Some(v) => Ok(st.(height := v))
      case None => Err("Invalid guifont height: " + t)
    else if t[0] == 'w' then
      match toFloat(t[1..])
      case Some(v) => Ok(st.(width := v))
      case None => Err("Invalid guifont width: " + t)
    else if t == "b" then Ok(st.(bold := true))
    else if t == "i" then Ok(st.(italic := true))
    else Ok(st)
  }

  /** The token loop from state `st`: stops at the first error. */
  function Fold(ts: seq<string>, st: Guifont, toFloat: string -> Option<real>): Result<Guifont, string> {
    if ts == [] then Ok(st)
    else
      match Step(st, ts[0], toFloat)
      case Err(e) => Err(e)
      case Ok(next) => Fold(ts[1..], next, toFloat)
  }

  /** The options `FromGuifont` reads from `guifont`. */
  function ParsedGuifont(guifont: string, toFloat: string -> Option<real>): Result<Guifont, string> {
    if guifont == [] then Err("Empty guifont") else Fold(Split(guifont, ':'), Defaults, toFloat)
  }

  /** The token loop of `FromGuifont`. */
  method ParseGuifont(guifont: string, toFloat: string -> Option<real>) returns (r: Result<Guifont, string>)
    ensures r == ParsedGuifont(guifont, toFloat)
  {
    if guifont == [] {
      return Err("Empty guifont");
    }
    var tokens := Split(guifont, ':');
    var st := Defaults;
    var k := 0;
    while k < |tokens|
      invariant 0 <= k <= |tokens|
      invariant Fold(tokens, Defaults, toFloat) == Fold(tokens[k..], st, toFloat)
    {
      var t := tokens[k];
      assert tokens[k..][0] == t && tokens[k..][1..] == tokens[k + 1..];
      if t != [] {
        if st.fonts == [] {
          st := st.(fonts := t);
        } else if t[0] == 'h' {
          var v := toFloat(t[1..]);
          if v.None? {
            return Err("Invalid guifont height: " + t);
          }
          st := st.(height := v.value);
        } else if t[0] == 'w' {
          var v := toFloat(t[1..]);
          if v.None? {
            return Err("Invalid guifont width: " + t);
          }
          st := st.(width := v.value);
        } else if t == "b" {
          st := st.(bold := true);
        } else if t == "i" {
          st := st.(italic := true);
        }
      }
      k := k + 1;
    }
    r := Ok(st);
  }

  /* ---------- what the parse means ---------- */

  /** The first non-empty token: the font list. */
  function FirstNonEmpty(ts: seq<string>): string {
    if ts == [] then [] else if ts[0] != [] then ts[0] else FirstNonEmpty(ts[1..])
  }

  /** The tokens after the font list (none when there is no font list). */
  function AfterFirst(ts: seq<string>): seq<string> {
    if ts == [] then [] else if ts[0] != [] then ts[1..] else AfterFirst(ts[1..])
  }

  /** The first option whose number does not convert. */
  function FirstBad(ts: seq<string>, toFloat: string -> Option<real>): (r: Option<string>)
    ensures r.Some? ==> r.value in ts && Bad(r.value, toFloat)
    ensures r.None? ==> forall k :: 0 <= k < |ts| ==> !Bad(ts[k], toFloat)
  {
    if ts == [] then None
    else if Bad(ts[0], toFloat) then Some(ts[0])
    else FirstBad(ts[1..], toFloat)
  }

  /** The last token starting with `c`. */
  function LastWith(ts: seq<string>, c: char): (r: Option<string>)
    ensures r.Some? ==> r.value in ts && StartsWith(r.value, c)
    ensures r.None? ==> forall k :: 0 <= k < |ts| ==> !StartsWith(ts[k], c)
  {
    if ts == [] then None
    else
      match LastWith(ts[1..], c)
      case Some(t) => Some(t)
      case None => if StartsWith(ts[0], c) then Some(ts[0]) else None
  }

  /** The value of the last `c` option, or `dflt` when there is none. */
  function Latest(ts: seq<string>, c: char, toFloat: string -> Option<real>, dflt: real): real {
    match LastWith(ts, c)
    case None => dflt
    case Some(t) => toFloat(t[1..]).GetOr(dflt)
  }

  /**
   * Once the font list is known, the options fail exactly at the first bad
   * number; otherwise the last `h` and `w` win, and bold and italic are set
   * exactly by the tokens "b" and "i".
   */
  lemma {:induction false} FoldOptions(ts: seq<string>, st: Guifont, toFloat: string -> Option<real>)
    requires st.fonts != []
    ensures FirstBad(ts, toFloat).Some? ==>
      Fold(ts, st, toFloat) == Err(BadMessage(FirstBad(ts, toFloat).value))
    ensures FirstBad(ts, toFloat).None? ==>
      Fold(ts, st, toFloat) == Ok(Guifont(st.fonts,
                                          Latest(ts, 'h', toFloat, st.height),
                                          Latest(ts, 'w', toFloat, st.width),
                                          st.bold || "b" in ts, st.italic || "i" in ts))
  {
    if FirstBad(ts, toFloat).Some? {
      FoldOptionsFails(ts, st, toFloat);
    } else {
      FoldOptionsSucceeds(ts, st, toFloat);
    }
  }

  lemma {:induction false} FoldOptionsFails(ts: seq<string>, st: Guifont, toFloat: string -> Option<real>)
    requires st.fonts != [] && FirstBad(ts, toFloat).Some?
    ensures Fold(ts, st, toFloat) == Err(BadMessage(FirstBad(ts, toFloat).value))
  {
    var t := ts[0];
    if !Bad(t, toFloat) {
      var next := Step(st, t, toFloat).value;
      FoldOptionsFails(ts[1..], next, toFloat);
    }
  }

  lemma {:induction false} FoldOptionsSucceeds(ts: seq<string>, st: Guifont, toFloat: string -> Option<real>)
    requires st.fonts != [] && FirstBad(ts, toFloat).None?
    ensures Fold(ts, st, toFloat) == Ok(Guifont(st.fonts,
                                                Latest(ts, 'h', toFloat, st.height),
                                                Latest(ts, 'w', toFloat, st.width),
                                                st.bold || "b" in ts, st.italic || "i" in ts))
  {
    if ts != [] {
      var t := ts[0];
      assert !Bad(t, toFloat);
      var next := Step(st, t, toFloat).value;
      FoldOptionsSucceeds(ts[1..], next, toFloat);
      assert ts == [t] + ts[1..];
      if t != [] && (t[0] == 'h' || t[0] == 'w') {
        assert "b" != t && "i" != t;
      }
    }
  }

  /** Before the font list, empty tokens are skipped and the first other token is the font list. */
  lemma {:induction false} FoldFontList(ts: seq<string>, toFloat: string -> Option<real>)
    ensures FirstNonEmpty(ts) == [] ==> Fold(ts, Defaults, toFloat) == Ok(Defaults)
    ensures FirstNonEmpty(ts) != [] ==>
      Fold(ts, Defaults, toFloat) == Fold(AfterFirst(ts), Defaults.(fonts := FirstNonEmpty(ts)), toFloat)
  {
    if ts != [] && ts[0] == [] {
      FoldFontList(ts[1..], toFloat);
    }
  }

  /**
   * The guifont option, read independently of the loop: the font list is the
   * first non-empty ':'-separated token; the option tokens after it fail at
   * the first bad number, and otherwise the last `h`/`w` override the
   * defaults 12 and 0 and only "b"/"i" turn on bold/italic.
   */
  lemma ParsedGuifontMeaning(guifont: string, toFloat: string -> Option<real>)
    ensures var ts := Split(guifont, ':');
      var opts := AfterFirst(ts);
      && (guifont == [] ==> ParsedGuifont(guifont, toFloat) == Err("Empty guifont"))
      && (guifont != [] && FirstBad(opts, toFloat).Some? ==>
            ParsedGuifont(guifont, toFloat) == Err(BadMessage(FirstBad(opts, toFloat).value)))
      && (guifont != [] && FirstBad(opts, toFloat).None? ==>
            ParsedGuifont(guifont, toFloat) == Ok(Guifont(FirstNonEmpty(ts),
                                                          Latest(opts, 'h', toFloat, 12.0),
                                                          Latest(opts, 'w', toFloat, 0.0),
                                                          "b" in opts, "i" in opts)))
  {
    var ts := Split(guifont, ':');
    FoldFontList(ts, toFloat);
    if FirstNonEmpty(ts) != [] {
      FoldOptions(AfterFirst(ts), Defaults.(fonts := FirstNonEmpty(ts)), toFloat);
    } else {
      NoFontListNoOptions(ts);
    }
  }

  lemma {:induction false} NoFontListNoOptions(ts: seq<string>)
    requires FirstNonEmpty(ts) == []
    ensures AfterFirst(ts) == []
  {
    if ts != [] {
      NoFontListNoOptions(ts[1..]);
    }
  }

  /* ---------- font sets ---------- */

  /** A loaded font: the file it came from and the size it was loaded at. */
  datatype Font = Font(path: string, height: real, width: real, dpiScale: real)

  /** What `Font::FromName` is asked for. */
  datatype FontRequest = FontRequest(name: string, height: real, width: real, bold: bool, italic: bool)

  /**
   * A style variant's handle: none, the normal font's own handle (shared
   * because it lives in the same file), or a font of its own.
   */
  datatype Variant = Absent | SameAsNormal | Own(font: Font)

  datatype FontSet = FontSet(normal: Font, bold: Variant, italic: Variant, boldItalic: Variant)

  /** `makeFontHandle`: share the normal font's handle when the file is the same. */
  function Share(f: Font, normal: Font): (v: Variant)
    ensures v == SameAsNormal <==> f.path == normal.path
    ensures v != SameAsNormal ==> v == Own(f)
  {
    if f.path == normal.path then SameAsNormal else Own(f)
  }

  /** The font a variant handle points to; the normal font for a shared handle. */
  function Resolve(v: Variant, normal: Font): Option<Font> {
    match v
    case Absent => None
    case SameAsNormal => Some(normal)
    case Own(f) => Some(f)
  }

  /**
   * The font set for one font name: the normal font carries the requested
   * style; only when no style was requested are the bold, italic and
   * bold-italic variants loaded too. A lookup that fails fails the set.
   */
  function MakeFontSet(name: string, g: Guifont, dpiScale: real,
                       fromName: (FontRequest, real) -> Result<Font, string>): Result<FontSet, string> {
    match fromName(FontRequest(name, g.height, g.width, g.bold, g.italic), dpiScale)
    case Err(e) => Err(e)
    case Ok(normal) =>
      if g.bold || g.italic then Ok(FontSet(normal, Absent, Absent, Absent))
      else
        match fromName(FontRequest(name, g.height, g.width, true, false), dpiScale)
        case Err(e) => Err(e)
        case Ok(b) =>
          match fromName(FontRequest(name, g.height, g.width, false, true), dpiScale)
          case Err(e) => Err(e)
          case Ok(i) =>
            match fromName(FontRequest(name, g.height, g.width, true, true), dpiScale)
            case Err(e) => Err(e)
            case Ok(bi) => Ok(FontSet(normal, Share(b, normal), Share(i, normal), Share(bi, normal)))
  }

  /** One font set per name, in order; the first failing name's error otherwise. */
  function FontSets(names: seq<string>, g: Guifont, dpiScale: real,
                    fromName: (FontRequest, real) -> Result<Font, string>): (r: Result<seq<FontSet>, string>)
    ensures r.Ok? <==> forall k :: 0 <= k < |names| ==> MakeFontSet(names[k], g, dpiScale, fromName).Ok?
    ensures r.Ok? ==> |r.value| == |names|
    ensures r.Ok? ==> forall k :: 0 <= k < |names| ==> r.value[k] == MakeFontSet(names[k], g, dpiScale, fromName).value
    ensures r.Err? ==> exists k :: 0 <= k < |names| && MakeFontSet(names[k], g, dpiScale, fromName) == Err(r.error)
                                   && forall j :: 0 <= j < k ==> MakeFontSet(names[j], g, dpiScale, fromName).Ok?
  {
    if names == [] then Ok([])
    else
      match MakeFontSet(names[0], g, dpiScale, fromName)
      case Err(e) => Err(e)
      case Ok(fs) =>
        match FontSets(names[1..], g, dpiScale, fromName)
        case Err(e) => Err(e)
        case Ok(rest) => Ok([fs] + rest)
  }

  /** The variant `GetGlyphInfo` asks for a style, falling back to the normal font. */
  function Select(fontSet: FontSet, bold: bool, italic: bool): Font {
    if bold && italic then Resolve(fontSet.boldItalic, fontSet.normal).GetOr(fontSet.normal)
    else if bold then Resolve(fontSet.bold, fontSet.normal).GetOr(fontSet.normal)
    else if italic then Resolve(fontSet.italic, fontSet.normal).GetOr(fontSet.normal)
    else fontSet.normal
  }

  /**
   * Selecting a style picks a font from the file `Font::FromName` found for
   * exactly that style when the guifont asked for no style, and the normal
   * font whatever the style when it asked for bold or italic.
   */
  lemma SelectMatchesRequest(name: string, g: Guifont, dpiScale: real,
                             fromName: (FontRequest, real) -> Result<Font, string>, bold: bool, italic: bool)
    requires MakeFontSet(name, g, dpiScale, fromName).Ok?
    ensures var fontSet := MakeFontSet(name, g, dpiScale, fromName).value;
      && (g.bold || g.italic ==> Select(fontSet, bold, italic) == fontSet.normal)
      && (!g.bold && !g.italic ==>
            var f := fromName(FontRequest(name, g.height, g.width, bold, italic), dpiScale);
            f.Ok? && Select(fontSet, bold, italic).path == f.value.path)
  {
  }

  /** The first font set whose selected variant has a glyph for `c`. */
  function FirstHit<G>(sets: seq<FontSet>, c: char, bold: bool, italic: bool,
                       lookup: (Font, char) -> Option<G>): (r: Option<nat>)
    ensures r.Some? ==> r.value < |sets| && lookup(Select(sets[r.value], bold, italic), c).Some?
    ensures r.Some? ==> forall k :: 0 <= k < r.value ==> lookup(Select(sets[k], bold, italic), c).None?
    ensures r.None? ==> forall k :: 0 <= k < |sets| ==> lookup(Select(sets[k], bold, italic), c).None?
  {
    if sets == [] then None
    else if lookup(Select(sets[0], bold, italic), c).Some? then Some(0)
    else
      match FirstHit(sets[1..], c, bold, italic, lookup)
      case None => None
      case Some(k) => Some(k + 1)
  }

  /* ---------- rescaling ---------- */

  /** A variant reloaded at a new scale, shared with the new normal font when the file is the same. */
  function RescaleVariant(v: Variant, oldNormal: Font, newNormal: Font, dpiScale: real): Variant {
    match Resolve(v, oldNormal)
    case None => Absent
    case Some(f) => Share(Font(f.path, f.height, f.width, dpiScale), newNormal)
  }

  /** A font set reloaded at a new scale; absent variants stay absent. */
  function RescaleSet(fontSet: FontSet, dpiScale: real): FontSet {
    var n := Font(fontSet.normal.path, fontSet.normal.height, fontSet.normal.width, dpiScale);
    FontSet(n, RescaleVariant(fontSet.bold, fontSet.normal, n, dpiScale),
            RescaleVariant(fontSet.italic, fontSet.normal, n, dpiScale),
            RescaleVariant(fontSet.boldItalic, fontSet.normal, n, dpiScale))
  }

  /**
   * Rescaling reloads every font from the same file at the same size and the
   * new scale; a variant is present exactly when it was, and it shares the
   * normal font exactly when it lives in the normal font's file.
   */
  lemma RescaleVariantMeaning(v: Variant, oldNormal: Font, dpiScale: real)
    ensures var n := Font(oldNormal.path, oldNormal.height, oldNormal.width, dpiScale);
      var r := RescaleVariant(v, oldNormal, n, dpiScale);
      && (r == Absent <==> v == Absent)
      && (v != Absent ==>
            var f := Resolve(v, oldNormal).value;
            && (r == SameAsNormal <==> f.path == oldNormal.path)
            && (r.Own? ==> r.font == Font(f.path, f.height, f.width, dpiScale)))
  {
  }

  /** `ChangeDpiScale` as written: a variant's handle is dereferenced even when the set has none. */
  function RescaleSetAsWritten(fontSet: FontSet, dpiScale: real): (r: Option<FontSet>)
    ensures r.Some? ==> r.value == RescaleSet(fontSet, dpiScale)
  {
    if fontSet.bold == Absent || fontSet.italic == Absent || fontSet.boldItalic == Absent then None
    else Some(RescaleSet(fontSet, dpiScale))
  }

  /** A guifont asking for bold gives sets without variants, which the written rescale cannot handle. */
  lemma RescaleAsWrittenFailsOnStyledGuifont(name: string, g: Guifont, dpiScale: real, newScale: real,
                                             fromName: (FontRequest, real) -> Result<Font, string>)
    requires g.bold && MakeFontSet(name, g, dpiScale, fromName).Ok?
    ensures RescaleSetAsWritten(MakeFontSet(name, g, dpiScale, fromName).value, newScale) == None
  {
  }

  /* ---------- building the family ---------- */

  /** `FromGuifont` as written: a guifont made only of ':' (such as "::") gives a family without font sets. */
  function FromGuifontAsWritten(guifont: string, dpiScale: real, toFloat: string -> Option<real>,
                                fromName: (FontRequest, real) -> Result<Font, string>): Result<seq<FontSet>, string> {
    match ParsedGuifont(guifont, toFloat)
    case Err(e) => Err(e)
    case Ok(g) => FontSets(Split(g.fonts, ','), g, dpiScale, fromName)
  }

  lemma FromGuifontAsWrittenWithoutName(toFloat: string -> Option<real>,
                                        fromName: (FontRequest, real) -> Result<Font, string>, dpiScale: real)
    ensures FromGuifontAsWritten(":", dpiScale, toFloat, fromName) == Ok([])
  {
    assert ":"[0] == ':';
    assert Find(":", ':') == 0;
    assert Split(":", ':') == ["", ""];
  }

  /** The font sets of `FromGuifont`, rejecting a guifont that names no font. */
  function FamilyFonts(guifont: string, dpiScale: real, toFloat: string -> Option<real>,
                       fromName: (FontRequest, real) -> Result<Font, string>): (r: Result<seq<FontSet>, string>)
    ensures r.Ok? ==> |r.value| > 0
  {
    match ParsedGuifont(guifont, toFloat)
    case Err(e) => Err(e)
    case Ok(g) =>
      if g.fonts == [] then Err("No font in guifont")
      else FontSets(Split(g.fonts, ','), g, dpiScale, fromName)
  }

  /**
   * A family is the parse's font list split on ',' with one set per name,
   * and its default font is the first name's font in the requested style.
   */
  lemma FamilyFontsMeaning(guifont: string, dpiScale: real, toFloat: string -> Option<real>,
                           fromName: (FontRequest, real) -> Result<Font, string>)
    requires FamilyFonts(guifont, dpiScale, toFloat, fromName).Ok?
    ensures ParsedGuifont(guifont, toFloat).Ok?
    ensures var g := ParsedGuifont(guifont, toFloat).value;
      var names := Split(g.fonts, ',');
      var sets := FamilyFonts(guifont, dpiScale, toFloat, fromName).value;
      && g.fonts != [] && |sets| == |names| > 0
      && Join(names, ',') == g.fonts
      && fromName(FontRequest(names[0], g.height, g.width, g.bold, g.italic), dpiScale) == Ok(sets[0].normal)
  {
    var g := ParsedGuifont(guifont, toFloat).value;
    var names := Split(g.fonts, ',');
    var sets := FontSets(names, g, dpiScale, fromName);
    assert FamilyFonts(guifont, dpiScale, toFloat, fromName) == sets;
    MakeFontSetNormal(names[0], g, dpiScale, fromName);
    JoinPieces(g.fonts, ',');
  }

  /** A font set's normal font is the font asked for in the requested style. */
  lemma MakeFontSetNormal(name: string, g: Guifont, dpiScale: real,
                          fromName: (FontRequest, real) -> Result<Font, string>)
    requires MakeFontSet(name, g, dpiScale, fromName).Ok?
    ensures fromName(FontRequest(name, g.height, g.width, g.bold, g.italic), dpiScale)
      == Ok(MakeFontSet(name, g, dpiScale, fromName).value.normal)
  {
  }

  class FontFamily {
    var fonts: seq<FontSet>
    /** The glyph size and scale the family's texture atlas was made with. */
    var atlasGlyphSize: real
    var atlasDpiScale: real

    ghost predicate Valid()
      reads this
    {
      |fonts| > 0
    }

    constructor (fonts: seq<FontSet>, glyphSize: real, dpiScale: real)
      ensures this.fonts == fonts && atlasGlyphSize == glyphSize && atlasDpiScale == dpiScale
    {
      this.fonts := fonts;
      atlasGlyphSize := glyphSize;
      atlasDpiScale := dpiScale;
    }

    /**
     * The first set's normal font: the one an unstyled lookup in the first
     * set resolves to. The family must not be empty.
     */
    function DefaultFont(): (f: Font)
      reads this
      requires Valid()
      ensures f == Select(fonts[0], false, false)
    {
      fonts[0].normal
    }

    /**
     * The glyph for `c` in the requested style from the first font set that
     * has it, else the first set's space glyph; none if that is missing too,
     * where the source dereferences a null glyph pointer.
     */
    method GetGlyphInfo<G>(c: char, bold: bool, italic: bool, lookup: (Font, char) -> Option<G>) returns (r: Option<G>)
      requires Valid()
      ensures match FirstHit(fonts, c, bold, italic, lookup)
        case Some(k) => r == lookup(Select(fonts[k], bold, italic), c)
        case None => r == lookup(DefaultFont(), ' ')
    {
      var k := 0;
      while k < |fonts|
        invariant 0 <= k <= |fonts|
        invariant forall j :: 0 <= j < k ==> lookup(Select(fonts[j], bold, italic), c).None?
      {
        var info := lookup(Select(fonts[k], bold, italic), c);
        if info.Some? {
          ghost var hit := FirstHit(fonts, c, bold, italic, lookup);
          assert hit.Some? && hit.value == k by {
            if hit.None? || hit.value < k {
            } else if hit.value > k {
            }
          }
          return info;
        }
        k := k + 1;
      }
      r := lookup(DefaultFont(), ' ');
    }

    /** Reloads every font set at the new scale and remakes the atlas for the default font. */
    method ChangeDpiScale(dpiScale: real)
      requires Valid()
      modifies this
      ensures Valid()
      ensures |fonts| == |old(fonts)|
      ensures forall k :: 0 <= k < |fonts| ==> fonts[k] == RescaleSet(old(fonts)[k], dpiScale)
      ensures atlasGlyphSize == DefaultFont().height == old(DefaultFont()).height
      ensures atlasDpiScale == dpiScale
    {
      var newFonts: seq<FontSet> := [];
      var k := 0;
      while k < |fonts|
        invariant 0 <= k <= |fonts| && |newFonts| == k
        invariant forall j :: 0 <= j < k ==> newFonts[j] == RescaleSet(fonts[j], dpiScale)
      {
        var fontSet := fonts[k];
        var normal := Font(fontSet.normal.path, fontSet.normal.height, fontSet.normal.width, dpiScale);
        var bold := RescaleVariant(fontSet.bold, fontSet.normal, normal, dpiScale);
        var italic := RescaleVariant(fontSet.italic, fontSet.normal, normal, dpiScale);
        var boldItalic := RescaleVariant(fontSet.boldItalic, fontSet.normal, normal, dpiScale);
        newFonts := newFonts + [FontSet(normal, bold, italic, boldItalic)];
        k := k + 1;
      }
      fonts := newFonts;
      atlasGlyphSize := DefaultFont().height;
      atlasDpiScale := dpiScale;
    }
  }

  /**
   * Reads the guifont option and builds the family: one font set per listed
   * name and an atlas for the parsed height.
   */
  method FromGuifont(guifont: string, dpiScale: real, toFloat: string -> Option<real>,
                     fromName: (FontRequest, real) -> Result<Font, string>) returns (r: Result<FontFamily, string>)
    ensures var spec := FamilyFonts(guifont, dpiScale, toFloat, fromName);
      && (r.Ok? <==> spec.Ok?)
      && (r.Err? ==> r.error == spec.error)
      && (r.Ok? ==> fresh(r.value) && r.value.Valid() && r.value.fonts == spec.value
                    && r.value.atlasGlyphSize == ParsedGuifont(guifont, toFloat).value.height
                    && r.value.atlasDpiScale == dpiScale)
  {
    var parsed := ParseGuifont(guifont, toFloat);
    if parsed.Err? {
      return Err(parsed.error);
    }
    var g := parsed.value;
    if g.fonts == [] {
      return Err("No font in guifont");
    }
    var sets := FontSets(Split(g.fonts, ','), g, dpiScale, fromName);
    if sets.Err? {
      return Err(sets.error);
    }
    var family := new FontFamily(sets.value, g.height, dpiScale);
    r := Ok(family);
  }
}
