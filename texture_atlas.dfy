/**
 * The glyph atlas of src/gfx/texture_atlas.cpp: a row-major RGBA pixel
 * buffer of fixed width into which glyph bitmaps are packed left to right
 * on shelves, and which grows downwards by whole bands when a glyph does
 * not fit. Texture and uniform-buffer creation are outside the model; the
 * upload in `Update` is modelled by the `uploaded` snapshot.
 */
module Atlas {
  import opened Region

  type Byte = b: int | 0 <= b < 256

  datatype Color = Color(r: Byte, g: Byte, b: Byte, a: Byte)

  /** A value-initialised pixel, as `std::vector::resize` appends them. */
  const Blank := Color(0, 0, 0, 0)

  /** Glyph pixels are white; the glyph's coverage becomes the alpha. */
  function Ink(alpha: Byte): Color { Color(255, 255, 255, alpha) }

  /** A glyph bitmap: an mdspan with extents (|rows|, width) of coverage bytes. */
  datatype Bitmap = Bitmap(width: nat, rows: seq<seq<Byte>>) {
    predicate WellFormed() { forall r :: 0 <= r < |rows| ==> |rows[r]| == width }
    function Height(): nat { |rows| }
  }

  /**
   * The number of pixels in `rows` rows of `w` pixels (`rows * w`, see
   * `AreaIsProduct`), written as a sum so that offsets stay linear.
   */
  function Area(rows: nat, w: nat): nat {
    if rows == 0 then 0 else Area(rows - 1, w) + w
  }

  lemma {:induction false} AreaIsProduct(rows: nat, w: nat)
    ensures Area(rows, w) == rows * w
  {
    if rows > 0 {
      AreaIsProduct(rows - 1, w);
    }
  }

  lemma {:induction false} AreaAdd(a: nat, b: nat, w: nat)
    ensures Area(a + b, w) == Area(a, w) + Area(b, w)
  {
    if b > 0 {
      AreaAdd(a, b - 1, w);
    }
  }

  /** Offset of pixel (row, col) in a row-major buffer `w` pixels wide. */
  function Flat(w: nat, row: nat, col: nat): nat { Area(row, w) + col }

  /** A pixel of a row that lies before row `h` lies in the first `h` rows. */
  lemma FlatBelow(w: nat, h: nat, row: nat, col: nat)
    requires row < h && col < w
    ensures Flat(w, row, col) < Area(h, w)
  {
    AreaAdd(row + 1, h - row - 1, w);
  }

  /** A pixel of row `h` or later lies after the first `h` rows. */
  lemma FlatAbove(w: nat, h: nat, row: nat, col: nat)
    requires h <= row
    ensures Area(h, w) <= Flat(w, row, col)
  {
    AreaAdd(h, row - h, w);
  }

  /** Within the row width, distinct pixels have distinct offsets. */
  lemma FlatInjective(w: nat, r1: nat, c1: nat, r2: nat, c2: nat)
    requires c1 < w && c2 < w && Flat(w, r1, c1) == Flat(w, r2, c2)
    ensures r1 == r2 && c1 == c2
  {
    if r1 < r2 {
      FlatAbove(w, r1 + 1, r2, c2);
    } else if r2 < r1 {
      FlatAbove(w, r2 + 1, r1, c1);
    }
  }

  /**
   * Pixel (row, col) of buffer `s`; pixels past the end read as blank,
   * which is what growing the buffer puts there.
   */
  ghost function Pixel(s: seq<Color>, w: nat, row: nat, col: nat): Color {
    if Flat(w, row, col) < |s| then s[Flat(w, row, col)] else Blank
  }

  /** Pixel (row, col) lies in the glyph `bm` placed at (x, y). */
  predicate InGlyph(x: nat, y: nat, bm: Bitmap, row: nat, col: nat) {
    y <= row < y + bm.Height() && x <= col < x + bm.width
  }

  /**
   * The blit's progress: pixel (row, col) lies in the glyph and its cell
   * comes before glyph cell (gr, gc) in row-major order.
   */
  predicate Covered(x: nat, y: nat, bm: Bitmap, gr: nat, gc: nat, row: nat, col: nat) {
    InGlyph(x, y, bm, row, col) && (row - y < gr || (row - y == gr && col - x < gc))
  }

  /** The colour the blit gives pixel (row, col) of the glyph placed at (x, y). */
  function GlyphColor(x: nat, y: nat, bm: Bitmap, row: nat, col: nat): Color
    requires bm.WellFormed() && InGlyph(x, y, bm, row, col)
  {
    Ink(bm.rows[row - y][col - x])
  }

  /** A buffer that keeps the length and the pixels of the one it replaces reads the same everywhere. */
  lemma PrefixKeepsPixels(s: seq<Color>, t: seq<Color>, w: nat)
    requires |s| <= |t| && t[..|s|] == s
    requires forall i :: |s| <= i < |t| ==> t[i] == Blank
    ensures forall row: nat, col: nat :: Pixel(t, w, row, col) == Pixel(s, w, row, col)
  {
    forall row: nat, col: nat ensures Pixel(t, w, row, col) == Pixel(s, w, row, col) {
      var i := Flat(w, row, col);
      if i < |s| {
        assert t[..|s|][i] == t[i];
      }
    }
  }

  /** Rows past the first `h` of a buffer of `h` rows read as blank. */
  lemma NewRowsBlank(s: seq<Color>, w: nat, h: nat, row: nat, col: nat)
    requires |s| == Area(h, w) && h <= row
    ensures Pixel(s, w, row, col) == Blank
  {
    FlatAbove(w, h, row, col);
  }

  /** A glyph's place in the atlas, in pixels. */
  function GlyphRect(x: nat, y: nat, bm: Bitmap): Rect {
    Rect(Vec2(x as real, y as real), Vec2(bm.width as real, bm.Height() as real))
  }

  /**
   * Glyph rectangle `g` lies inside the row width and above, or on the shelf
   * at row `y` to the left of, the cursor (x, y) of a shelf `maxH` tall.
   */
  ghost predicate Shelved(g: Rect, width: nat, x: nat, y: nat, maxH: nat) {
    && 0.0 <= g.Left() && g.Right() <= width as real && 0.0 <= g.Top()
    && (|| g.Bottom() <= y as real
        || (&& g.Top() == y as real && g.Right() <= x as real && g.Bottom() <= (y + maxH) as real))
  }

  /** Every glyph placed so far is shelved behind the cursor, and no two overlap. */
  ghost predicate Shelf(placed: seq<Rect>, width: nat, x: nat, y: nat, maxH: nat) {
    && (forall i :: 0 <= i < |placed| ==> Shelved(placed[i], width, x, y, maxH))
    && (forall i, j :: 0 <= i < j < |placed| ==> !RectIntersect(placed[i], placed[j]))
  }

  /** Starting a new shelf below the tallest glyph of the current one keeps every glyph shelved. */
  lemma WrapKeepsShelf(placed: seq<Rect>, width: nat, x: nat, y: nat, maxH: nat)
    requires Shelf(placed, width, x, y, maxH)
    ensures Shelf(placed, width, 0, y + maxH, 0)
  {
    forall i | 0 <= i < |placed| ensures Shelved(placed[i], width, 0, y + maxH, 0) {
      assert Shelved(placed[i], width, x, y, maxH);
    }
  }

  /**
   * A glyph placed at the cursor overlaps no earlier glyph, and after the
   * cursor advances past it every glyph, the new one included, is shelved.
   */
  lemma PlaceKeepsShelf(placed: seq<Rect>, width: nat, x: nat, y: nat, maxH: nat, bm: Bitmap)
    requires Shelf(placed, width, x, y, maxH) && x + bm.width <= width
    ensures var n := GlyphRect(x, y, bm);
      && (forall i :: 0 <= i < |placed| ==> !RectIntersect(placed[i], n))
      && Shelf(placed + [n], width, x + bm.width, y, if maxH >= bm.Height() then maxH else bm.Height())
  {
    var n := GlyphRect(x, y, bm);
    var m := if maxH >= bm.Height() then maxH else bm.Height();
    var t := placed + [n];
    forall i | 0 <= i < |placed| ensures !RectIntersect(placed[i], n) {
      assert Shelved(placed[i], width, x, y, maxH);
    }
    forall i | 0 <= i < |t| ensures Shelved(t[i], width, x + bm.width, y, m) {
      if i < |placed| {
        assert Shelved(placed[i], width, x, y, maxH);
      }
    }
  }

  class TextureAtlas {
    const dpiScale: real
    /** The glyph size in physical pixels. */
    const trueGlyphSize: real
    /** bufferSize.x: the fixed row width in pixels. */
    const width: nat
    /** The height of one band of rows: trueGlyphSize * 3, truncated. */
    const bandHeight: nat
    /** bufferSize.y. */
    var height: nat
    /** The pixels, row-major: pixel (row, col) is at `Flat(width, row, col)`. */
    var dataRaw: array<Color>
    /** currentPos: where the next glyph goes on the current shelf. */
    var currX: nat
    var currY: nat
    /** The tallest glyph on the current shelf. */
    var currMaxHeight: nat
    var dirty: bool
    var resized: bool
    /** The pixels last written to the GPU texture. */
    var uploaded: seq<Color>
    /** The rectangles of all glyphs placed so far, in pixels. */
    ghost var placed: seq<Rect>

    /**
     * The buffer holds exactly width * height pixels, the shelf cursor lies
     * inside it, and the glyphs placed so far are shelved and pairwise disjoint.
     */
    ghost predicate Valid()
      reads this
    {
      && dataRaw.Length == Area(height, width)
      && currX <= width
      && currY + currMaxHeight <= height
      && Shelf(placed, width, currX, currY, currMaxHeight)
    }

    /** Pixel (row, col) of the buffer. */
    ghost function At(row: nat, col: nat): Color
      reads this, dataRaw
    {
      Pixel(dataRaw[..], width, row, col)
    }

    /** textureSize: the buffer size in logical pixels. */
    function TextureSize(): Vec2
      reads this
      requires dpiScale != 0.0
    {
      Vec2(width as real, height as real).Div(dpiScale)
    }

    /**
     * Sizes the buffer to `glyphsPerRow` glyphs across and one band (three
     * glyphs) down, all pixels blank.
     */
    constructor (glyphSize: real, dpiScale: real, glyphsPerRow: nat)
      requires glyphSize >= 0.0 && dpiScale > 0.0
      ensures Valid() && fresh(dataRaw)
      ensures this.dpiScale == dpiScale && trueGlyphSize == glyphSize * dpiScale
      ensures width == (trueGlyphSize * glyphsPerRow as real).Floor
      ensures bandHeight == (trueGlyphSize * 3.0).Floor && height == bandHeight
      ensures dataRaw.Length == height * width
      ensures forall i :: 0 <= i < dataRaw.Length ==> dataRaw[i] == Blank
      ensures currX == 0 && currY == 0 && currMaxHeight == 0
      ensures !dirty && !resized && placed == []
    {
      this.dpiScale := dpiScale;
      trueGlyphSize := glyphSize * dpiScale;
      var tgs := glyphSize * dpiScale;
      assert tgs >= 0.0;
      var band := (tgs * 3.0).Floor;
      var w := (tgs * glyphsPerRow as real).Floor;
      width := w;
      bandHeight := band;
      height := band;
      AreaIsProduct(band, w);
      dataRaw := new Color[Area(band, w)](_ => Blank);
      currX, currY, currMaxHeight := 0, 0, 0;
      dirty, resized := false, false;
      uploaded := [];
      placed := [];
    }

    /**
     * Grows the buffer by one band of rows. The old pixels stay a prefix, so
     * every pixel keeps its (row, col) and the new rows are blank.
     */
    method Resize()
      requires Valid()
      modifies this`height, this`dataRaw, this`resized
      ensures Valid() && fresh(dataRaw)
      ensures height == old(height) + bandHeight && resized
      ensures old(dataRaw.Length) <= dataRaw.Length
      ensures dataRaw[..old(dataRaw.Length)] == old(dataRaw[..])
      ensures forall row: nat, col: nat :: At(row, col) == old(At(row, col))
    {
      var newHeight := height + bandHeight;
      AreaAdd(height, bandHeight, width);
      var newData := new Color[Area(newHeight, width)](_ => Blank);
      var i := 0;
      while i < dataRaw.Length
        invariant 0 <= i <= dataRaw.Length <= newData.Length
        invariant newData[..i] == dataRaw[..i]
        invariant forall k :: i <= k < newData.Length ==> newData[k] == Blank
        modifies newData
      {
        newData[i] := dataRaw[i];
        i := i + 1;
      }
      assert newData[..dataRaw.Length] == dataRaw[..];
      PrefixKeepsPixels(dataRaw[..], newData[..], width);
      height := newHeight;
      dataRaw := newData;
      resized := true;
    }

    /** Copies glyph `bm` into the buffer with its top-left pixel at (x, y). */
    method Blit(x: nat, y: nat, bm: Bitmap)
      requires bm.WellFormed() && x + bm.width <= width && y + bm.Height() <= height
      requires dataRaw.Length == Area(height, width)
      modifies dataRaw
      ensures forall row: nat, col: nat | col < width ::
        At(row, col) == if InGlyph(x, y, bm, row, col) then GlyphColor(x, y, bm, row, col) else old(At(row, col))
    {
      ghost var s := dataRaw[..];
      var gr := 0;
      while gr < bm.Height()
        invariant 0 <= gr <= bm.Height()
        invariant forall row: nat, col: nat | col < width ::
          At(row, col) == if Covered(x, y, bm, gr, 0, row, col) then GlyphColor(x, y, bm, row, col) else Pixel(s, width, row, col)
      {
        var gc := 0;
        while gc < bm.width
          invariant 0 <= gc <= bm.width
          invariant forall row: nat, col: nat | col < width ::
            At(row, col) == if Covered(x, y, bm, gr, gc, row, col) then GlyphColor(x, y, bm, row, col) else Pixel(s, width, row, col)
        {
          ghost var before := dataRaw[..];
          FlatBelow(width, height, y + gr, x + gc);
          var idx := Area(y + gr, width) + x + gc;
          dataRaw[idx] := Ink(bm.rows[gr][gc]);
          forall row: nat, col: nat | col < width
            ensures At(row, col) == if Covered(x, y, bm, gr, gc + 1, row, col) then GlyphColor(x, y, bm, row, col) else Pixel(s, width, row, col)
          {
            if Flat(width, row, col) == idx {
              FlatInjective(width, row, col, y + gr, x + gc);
            } else {
              assert At(row, col) == Pixel(before, width, row, col);
            }
          }
          gc := gc + 1;
        }
        gr := gr + 1;
      }
    }

    /** A glyph `gw` pixels wide does not fit on the current shelf and starts a new one below. */
    predicate Wraps(gw: nat)
      reads this
    {
      currX + gw > width
    }

    /** Where a glyph `gw` pixels wide is placed: on the current shelf, or at the start of a new one. */
    function ShelfX(gw: nat): nat
      reads this
    {
      if Wraps(gw) then 0 else currX
    }

    function ShelfY(gw: nat): nat
      reads this
    {
      if Wraps(gw) then currY + currMaxHeight else currY
    }

    /**
     * Places glyph `bm` at the shelf cursor (wrapping to a new shelf and
     * growing the buffer when needed), copies its pixels and returns its
     * region in logical pixels. The glyph must fit the row width and one
     * band, which the atlas's sizing is chosen to guarantee.
     */
    method AddGlyph(bm: Bitmap) returns (region: Corners)
      requires Valid() && dpiScale != 0.0
      requires bm.WellFormed() && bm.width <= width && bm.Height() <= bandHeight
      modifies this, dataRaw
      ensures Valid()
      ensures var x, y := old(ShelfX(bm.width)), old(ShelfY(bm.width));
        var grows := y + bm.Height() > old(height);
        && region == MakeRegion(Vec2(x as real, y as real).Div(dpiScale),
                                Vec2(bm.width as real, bm.Height() as real).Div(dpiScale))
        && currX == x + bm.width && currY == y
        && currMaxHeight == (if !old(Wraps(bm.width)) && old(currMaxHeight) > bm.Height()
                             then old(currMaxHeight) else bm.Height())
        && height == (if grows then old(height) + bandHeight else old(height))
        && resized == (old(resized) || grows)
        && dirty && uploaded == old(uploaded)
        && placed == old(placed) + [GlyphRect(x, y, bm)]
        && (forall row: nat, col: nat | col < width ::
              At(row, col) == if InGlyph(x, y, bm, row, col) then GlyphColor(x, y, bm, row, col)
                              else old(At(row, col)))
    {
      MakeRoom(bm.width, bm.Height());
      Blit(currX, currY, bm);
      dirty := true;
      region := MakeRegion(Vec2(currX as real, currY as real).Div(dpiScale),
                           Vec2(bm.width as real, bm.Height() as real).Div(dpiScale));
      ghost var n := GlyphRect(currX, currY, bm);
      PlaceKeepsShelf(placed, width, currX, currY, currMaxHeight, bm);
      placed := placed + [n];
      currX := currX + bm.width;
      currMaxHeight := if currMaxHeight >= bm.Height() then currMaxHeight else bm.Height();
    }

    /**
     * The first half of `AddGlyph`: moves the cursor to a new shelf when a
     * glyph `gw` wide does not fit the row, then grows the buffer by a band
     * when a glyph `gh` tall does not fit below the cursor.
     */
    method MakeRoom(gw: nat, gh: nat)
      requires Valid() && gw <= width && gh <= bandHeight
      modifies this`currX, this`currY, this`currMaxHeight, this`height, this`dataRaw, this`resized
      ensures Valid()
      ensures currX == old(ShelfX(gw)) && currY == old(ShelfY(gw))
      ensures currMaxHeight == if old(Wraps(gw)) then 0 else old(currMaxHeight)
      ensures var grows := currY + gh > old(height);
        && height == (if grows then old(height) + bandHeight else old(height))
        && resized == (old(resized) || grows)
      ensures currX + gw <= width && currY + gh <= height
      ensures dataRaw == old(dataRaw) || fresh(dataRaw)
      ensures forall row: nat, col: nat :: At(row, col) == old(At(row, col))
    {
      if currX + gw > width {
        WrapKeepsShelf(placed, width, currX, currY, currMaxHeight);
        currX := 0;
        currY := currY + currMaxHeight;
        currMaxHeight := 0;
      }
      if currY + gh > height {
        Resize();
      }
    }

    /** Uploads the pixels when they changed since the last upload, and clears both flags. */
    method Update()
      modifies this`dirty, this`resized, this`uploaded
      ensures !old(dirty) ==> dirty == old(dirty) && resized == old(resized) && uploaded == old(uploaded)
      ensures old(dirty) ==> !dirty && !resized && uploaded == dataRaw[..]
    {
      if !dirty {
        return;
      }
      if resized {
        resized := false;
      }
      uploaded := dataRaw[..];
      dirty := false;
    }
  }
}
