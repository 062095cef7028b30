/**
 * The CPU side of src/gfx/renderer.cpp: `RenderToWindow` turns a grid's
 * cells into background and text quads, records after each row how many
 * quads were written, and plans one rect pass and one text pass per render
 * target from those row intervals; `RenderCursor` picks the cursor's colors.
 * Render passes are returned as values instead of being encoded on the GPU.
 */
module Rendering {
  import opened Region
  import opened Wrappers
  import opened Quad

  datatype Rgba = Rgba(r: real, g: real, b: real, a: real)

  /** The part of a highlight the renderer reads. */
  datatype Highlight = Highlight(background: Option<Rgba>, bgAlpha: real, bold: bool, italic: bool)

  type HlTable = map<int, Highlight>

  datatype Cell = Cell(text: string, hlId: int)

  /** A grid's size and its lines of cells. */
  datatype GridLines = GridLines(width: nat, height: nat, lines: seq<seq<Cell>>)

  /** A grid holds `height` lines of `width` cells. */
  ghost predicate Shaped(g: GridLines) {
    |g.lines| == g.height && forall r :: 0 <= r < |g.lines| ==> |g.lines[r]| == g.width
  }

  /** What a glyph lookup returns: bearing, quad corners relative to the pen, atlas region. */
  datatype GlyphInfo = GlyphInfo(bearing: Vec2, sizePositions: Corners, region: Corners)

  /**
   * What rendering a grid depends on besides the grid: the highlight table,
   * the default font's cell size and pixel size, the glyph lookup
   * (`FontFamily::GetGlyphInfo` after UTF-8 decoding) and the foreground
   * color rule of a highlight (`GetForeground`).
   */
  datatype RenderEnv = RenderEnv(
    hl: HlTable,
    charSize: Vec2,
    fontSize: real,
    glyphOf: (string, bool, bool) -> GlyphInfo,
    fgOf: Highlight -> Rgba)

  datatype RectQuad = RectQuad(positions: Corners, color: Rgba)
  datatype TextQuad = TextQuad(positions: Corners, regionCoords: Corners, foreground: Rgba)

  /**
   * The table lookups a cell makes succeed: its own highlight, and the
   * default highlight 0 when the background comparison reaches it.
   */
  predicate CellKnown(cell: Cell, hl: HlTable) {
    cell.hlId in hl && (cell.hlId != 0 && hl[cell.hlId].background.Some? ==> 0 in hl)
  }

  ghost predicate LineKnown(line: seq<Cell>, hl: HlTable) {
    forall c :: 0 <= c < |line| ==> CellKnown(line[c], hl)
  }

  ghost predicate Known(lines: seq<seq<Cell>>, hl: HlTable) {
    forall r :: 0 <= r < |lines| ==> LineKnown(lines[r], hl)
  }

  /** A cell gets a background quad when its highlight sets a background other than the default one. */
  predicate EmitsRect(cell: Cell, hl: HlTable)
    requires CellKnown(cell, hl)
  {
    cell.hlId != 0 && hl[cell.hlId].background.Some? && hl[cell.hlId].background != hl[0].background
  }

  /** A cell gets a text quad when it holds something other than nothing or a space. */
  predicate EmitsText(cell: Cell) {
    cell.text != "" && cell.text != " "
  }

  /** The pen after `n` steps of `step` from 0, added one step at a time as the render loop does. */
  function Advanced(n: nat, step: real): real {
    if n == 0 then 0.0 else Advanced(n - 1, step) + step
  }

  /** The accumulated pen position is n cell sizes. */
  lemma {:induction false} AdvancedIsProduct(n: nat, step: real)
    ensures Advanced(n, step) == n as real * step
  {
    if n > 0 {
      AdvancedIsProduct(n - 1, step);
      assert n as real * step == (n - 1) as real * step + step;
    }
  }

  /** The pen position of a cell: `col` cell widths right and `row` cell heights down. */
  function CellOffset(row: nat, col: nat, cs: Vec2): Vec2 {
    Vec2(Advanced(col, cs.x), Advanced(row, cs.y))
  }

  /** The background quad of a cell at pen position `offset`: one cell, in the highlight's background with its alpha. */
  function RectAt(cell: Cell, env: RenderEnv, offset: Vec2): RectQuad
    requires CellKnown(cell, env.hl) && EmitsRect(cell, env.hl)
  {
    var h := env.hl[cell.hlId];
    RectQuad(Translate(MakeRegion(Zero, env.charSize), offset), h.background.value.(a := h.bgAlpha))
  }

  /** The text quad of a cell at pen position `offset`: the glyph's quad placed on the baseline. */
  function TextAt(cell: Cell, env: RenderEnv, offset: Vec2): TextQuad
    requires cell.hlId in env.hl
  {
    var h := env.hl[cell.hlId];
    var glyph := env.glyphOf(cell.text, h.bold, h.italic);
    var pen := Vec2(offset.x + glyph.bearing.x, offset.y - glyph.bearing.y + env.fontSize);
    TextQuad(Translate(glyph.sizePositions, pen), glyph.region, env.fgOf(h))
  }

  /** The background quads of the first `n` cells of line `row`, left to right. */
  function RowRects(line: seq<Cell>, row: nat, n: nat, env: RenderEnv): (r: seq<RectQuad>)
    requires n <= |line| && LineKnown(line, env.hl)
    ensures |r| <= n
  {
    if n == 0 then []
    else
      RowRects(line, row, n - 1, env)
      + (if EmitsRect(line[n - 1], env.hl) then [RectAt(line[n - 1], env, CellOffset(row, n - 1, env.charSize))] else [])
  }

  /** The text quads of the first `n` cells of line `row`, left to right. */
  function RowTexts(line: seq<Cell>, row: nat, n: nat, env: RenderEnv): (r: seq<TextQuad>)
    requires n <= |line| && LineKnown(line, env.hl)
    ensures |r| <= n
  {
    if n == 0 then []
    else
      RowTexts(line, row, n - 1, env)
      + (if EmitsText(line[n - 1]) then [TextAt(line[n - 1], env, CellOffset(row, n - 1, env.charSize))] else [])
  }

  /** The background quads of the first `rows` lines, in row-major order. */
  function GridRects(lines: seq<seq<Cell>>, rows: nat, env: RenderEnv): seq<RectQuad>
    requires rows <= |lines| && Known(lines, env.hl)
  {
    if rows == 0 then []
    else GridRects(lines, rows - 1, env) + RowRects(lines[rows - 1], rows - 1, |lines[rows - 1]|, env)
  }

  /** The text quads of the first `rows` lines, in row-major order. */
  function GridTexts(lines: seq<seq<Cell>>, rows: nat, env: RenderEnv): seq<TextQuad>
    requires rows <= |lines| && Known(lines, env.hl)
  {
    if rows == 0 then []
    else GridTexts(lines, rows - 1, env) + RowTexts(lines[rows - 1], rows - 1, |lines[rows - 1]|, env)
  }

  /**
   * At most one quad of each kind per cell: a grid of `height` lines of
   * `width` cells never needs more than width * height quads, the capacity
   * the window allocates.
   */
  lemma {:induction false} GridQuadsBounded(g: GridLines, rows: nat, env: RenderEnv)
    requires Shaped(g) && rows <= |g.lines| && Known(g.lines, env.hl)
    ensures |GridRects(g.lines, rows, env)| <= rows * g.width
    ensures |GridTexts(g.lines, rows, env)| <= rows * g.width
  {
    if rows > 0 {
      GridQuadsBounded(g, rows - 1, env);
      assert (rows - 1) * g.width + g.width == rows * g.width;
    }
  }

  /** A line yields no background quad exactly when none of its cells asks for one. */
  lemma {:induction false} NoRectsIffDefaultBackgrounds(line: seq<Cell>, row: nat, n: nat, env: RenderEnv)
    requires n <= |line| && LineKnown(line, env.hl)
    ensures RowRects(line, row, n, env) == [] <==> forall c :: 0 <= c < n ==> !EmitsRect(line[c], env.hl)
  {
    if n > 0 {
      NoRectsIffDefaultBackgrounds(line, row, n - 1, env);
    }
  }

  /** A line yields no text quad exactly when all its cells are empty or spaces. */
  lemma {:induction false} NoTextsIffBlank(line: seq<Cell>, row: nat, n: nat, env: RenderEnv)
    requires n <= |line| && LineKnown(line, env.hl)
    ensures RowTexts(line, row, n, env) == [] <==> forall c :: 0 <= c < n ==> !EmitsText(line[c])
  {
    if n > 0 {
      NoTextsIffBlank(line, row, n - 1, env);
    }
  }

  /** The background quads of rows [lo, hi), row after row. */
  function RowsRects(lines: seq<seq<Cell>>, lo: nat, hi: nat, env: RenderEnv): seq<RectQuad>
    requires lo <= hi <= |lines| && Known(lines, env.hl)
    decreases hi - lo
  {
    if lo == hi then [] else RowRects(lines[lo], lo, |lines[lo]|, env) + RowsRects(lines, lo + 1, hi, env)
  }

  /** The text quads of rows [lo, hi), row after row. */
  function RowsTexts(lines: seq<seq<Cell>>, lo: nat, hi: nat, env: RenderEnv): seq<TextQuad>
    requires lo <= hi <= |lines| && Known(lines, env.hl)
    decreases hi - lo
  {
    if lo == hi then [] else RowTexts(lines[lo], lo, |lines[lo]|, env) + RowsTexts(lines, lo + 1, hi, env)
  }

  /**
   * The quads written after the mark of row `lo` and up to the mark of row
   * `hi` are exactly the quads of rows lo to hi - 1: a render target drawing
   * between two marks draws its own rows and no other.
   */
  lemma {:induction false} MarksDelimitRows(lines: seq<seq<Cell>>, lo: nat, hi: nat, env: RenderEnv)
    requires lo <= hi <= |lines| && Known(lines, env.hl)
    ensures GridRects(lines, hi, env) == GridRects(lines, lo, env) + RowsRects(lines, lo, hi, env)
    ensures GridTexts(lines, hi, env) == GridTexts(lines, lo, env) + RowsTexts(lines, lo, hi, env)
  {
    MarksDelimitRects(lines, lo, hi, env);
    MarksDelimitTexts(lines, lo, hi, env);
  }

  lemma {:induction false} MarksDelimitRects(lines: seq<seq<Cell>>, lo: nat, hi: nat, env: RenderEnv)
    requires lo <= hi <= |lines| && Known(lines, env.hl)
    ensures GridRects(lines, hi, env) == GridRects(lines, lo, env) + RowsRects(lines, lo, hi, env)
    decreases hi - lo
  {
    if lo < hi {
      var head, row := GridRects(lines, lo, env), RowRects(lines[lo], lo, |lines[lo]|, env);
      var rest := RowsRects(lines, lo + 1, hi, env);
      assert GridRects(lines, hi, env) == (head + row) + rest by {
        MarksDelimitRects(lines, lo + 1, hi, env);
        assert GridRects(lines, lo + 1, env) == head + row;
      }
      assert RowsRects(lines, lo, hi, env) == row + rest;
      assert (head + row) + rest == head + (row + rest);
    }
  }

  lemma {:induction false} MarksDelimitTexts(lines: seq<seq<Cell>>, lo: nat, hi: nat, env: RenderEnv)
    requires lo <= hi <= |lines| && Known(lines, env.hl)
    ensures GridTexts(lines, hi, env) == GridTexts(lines, lo, env) + RowsTexts(lines, lo, hi, env)
    decreases hi - lo
  {
    if lo < hi {
      var head, row := GridTexts(lines, lo, env), RowTexts(lines[lo], lo, |lines[lo]|, env);
      var rest := RowsTexts(lines, lo + 1, hi, env);
      assert GridTexts(lines, hi, env) == (head + row) + rest by {
        MarksDelimitTexts(lines, lo + 1, hi, env);
        assert GridTexts(lines, lo + 1, env) == head + row;
      }
      assert RowsTexts(lines, lo, hi, env) == row + rest;
      assert (head + row) + rest == head + (row + rest);
    }
  }

  /** Rows before the last one leave room for one more row of quads. */
  lemma RoomForRow(row: nat, width: nat, height: nat)
    requires row < height
    ensures row * width + width <= width * height
  {
    assert row * width + width == (row + 1) * width;
  }

  /**
   * The quads of the first `a` rows are a prefix of those of the first `b`
   * rows: row counts never decrease, and the quads between two row marks
   * are exactly the quads of the rows in between.
   */
  lemma {:induction false} GridPrefix(lines: seq<seq<Cell>>, a: nat, b: nat, env: RenderEnv)
    requires a <= b <= |lines| && Known(lines, env.hl)
    ensures GridRects(lines, a, env) <= GridRects(lines, b, env)
    ensures GridTexts(lines, a, env) <= GridTexts(lines, b, env)
  {
    if a < b {
      GridPrefix(lines, a, b - 1, env);
    }
  }

  /** A render target with the rows it must redraw and an optional region to clear first. */
  datatype RowRange = RowRange(start: nat, end: nat)
  datatype RenderInfo = RenderInfo(texture: nat, range: RowRange, clearRegion: Option<Rect>)

  /**
   * The two passes planned for one render target: whether the rect pass
   * keeps the target's contents, the quad that clears the given region,
   * and the rect and text draws (none when the range holds no quads).
   */
  datatype Passes = Passes(
    texture: nat,
    loadsExisting: bool,
    clearQuad: Option<Corners>,
    rectDraw: Option<DrawCall>,
    textDraw: Option<DrawCall>)

  /** A draw of the quads between two row marks, none when they are equal. */
  function RangeDraw(start: int, end: int): (d: Option<DrawCall>)
    requires 0 <= start <= end
    ensures d.None? <==> start == end
    ensures d.Some? ==> d.value.firstIndex == 6 * start && d.value.indexCount == 6 * (end - start)
  {
    if start != end then Some(DrawCall(6 * start, 6 * (end - start))) else None
  }

  /** The rect draw of rows [lo, hi): the quads between the two row marks. */
  ghost function RectsDraw(lines: seq<seq<Cell>>, lo: nat, hi: nat, env: RenderEnv): Option<DrawCall>
    requires lo <= hi <= |lines| && Known(lines, env.hl)
  {
    GridPrefix(lines, lo, hi, env);
    RangeDraw(|GridRects(lines, lo, env)|, |GridRects(lines, hi, env)|)
  }

  /** The text draw of rows [lo, hi). */
  ghost function TextsDraw(lines: seq<seq<Cell>>, lo: nat, hi: nat, env: RenderEnv): Option<DrawCall>
    requires lo <= hi <= |lines| && Known(lines, env.hl)
  {
    GridPrefix(lines, lo, hi, env);
    RangeDraw(|GridTexts(lines, lo, env)|, |GridTexts(lines, hi, env)|)
  }

  /** The outcome of `RenderToWindow` when the grid and window sizes agree. */
  datatype Rendered = Rendered(rectIntervals: seq<int>, textIntervals: seq<int>, passes: seq<Passes>)

  /** The quads of one cell: a background quad and a text quad as the cell asks for them. */
  method EmitCell(rectData: QuadRenderData<RectQuad>, textData: QuadRenderData<TextQuad>,
                  cell: Cell, offset: Vec2, env: RenderEnv)
    requires rectData.Valid() && textData.Valid() && rectData.indices != textData.indices
    requires CellKnown(cell, env.hl)
    requires rectData.quadCount < rectData.quads.Length && textData.quadCount < textData.quads.Length
    modifies rectData`quadCount, rectData`vertexCount, rectData`indexCount, rectData.indices, rectData.quads
    modifies textData`quadCount, textData`vertexCount, textData`indexCount, textData.indices, textData.quads
    ensures rectData.Valid() && textData.Valid()
    ensures rectData.quadCount <= rectData.quads.Length && textData.quadCount <= textData.quads.Length
    ensures rectData.quads[..rectData.quadCount] == old(rectData.quads[..rectData.quadCount])
      + (if EmitsRect(cell, env.hl) then [RectAt(cell, env, offset)] else [])
    ensures textData.quads[..textData.quadCount] == old(textData.quads[..textData.quadCount])
      + (if EmitsText(cell) then [TextAt(cell, env, offset)] else [])
  {
    var hl := env.hl[cell.hlId];
    if cell.hlId != 0 && hl.background.Some? && hl.background != env.hl[0].background {
      var slot := rectData.NextQuad();
      rectData.quads[slot] := RectAt(cell, env, offset);
    }
    if cell.text != "" && cell.text != " " {
      var slot := textData.NextQuad();
      textData.quads[slot] := TextAt(cell, env, offset);
    }
  }

  /** The passes planned for `info`: its target, its load or clear choice, its clear quad and the draws of its rows. */
  ghost predicate PassFor(info: RenderInfo, p: Passes, lines: seq<seq<Cell>>, env: RenderEnv)
    requires info.range.start <= info.range.end <= |lines| && Known(lines, env.hl)
  {
    && p.texture == info.texture
    && p.loadsExisting == info.clearRegion.Some?
    && (p.clearQuad.Some? <==> info.clearRegion.Some?)
    && (p.clearQuad.Some? ==> p.clearQuad.value == info.clearRegion.value.Region())
    && p.rectDraw == RectsDraw(lines, info.range.start, info.range.end, env)
    && p.textDraw == TextsDraw(lines, info.range.start, info.range.end, env)
  }

  /** The row marks recorded for `lines`: entry r is the number of quads the first r rows produce. */
  ghost predicate Marks(rectIntervals: seq<int>, textIntervals: seq<int>, lines: seq<seq<Cell>>, env: RenderEnv)
    requires Known(lines, env.hl)
  {
    && |rectIntervals| == |lines| + 1 && |textIntervals| == |lines| + 1
    && forall r :: 0 <= r <= |lines| ==>
      rectIntervals[r] == |GridRects(lines, r, env)| && textIntervals[r] == |GridTexts(lines, r, env)|
  }

  /** The rect quad counts before each of the first `n` rows, as the row loop records them. */
  ghost function RectMarks(lines: seq<seq<Cell>>, n: nat, env: RenderEnv): (m: seq<int>)
    requires n <= |lines| + 1 && Known(lines, env.hl)
    ensures |m| == n
  {
    if n == 0 then [] else RectMarks(lines, n - 1, env) + [|GridRects(lines, n - 1, env)|]
  }

  /** The text quad counts before each of the first `n` rows. */
  ghost function TextMarks(lines: seq<seq<Cell>>, n: nat, env: RenderEnv): (m: seq<int>)
    requires n <= |lines| + 1 && Known(lines, env.hl)
    ensures |m| == n
  {
    if n == 0 then [] else TextMarks(lines, n - 1, env) + [|GridTexts(lines, n - 1, env)|]
  }

  /** The marks recorded before every row and after the last are the row marks of the grid. */
  lemma MarksComplete(lines: seq<seq<Cell>>, env: RenderEnv)
    requires Known(lines, env.hl)
    ensures Marks(RectMarks(lines, |lines| + 1, env), TextMarks(lines, |lines| + 1, env), lines, env)
  {
    MarksRecorded(lines, |lines| + 1, env);
  }

  /** Recording the counts row by row gives, for every row mark r, the quads of the first r rows. */
  lemma {:induction false} MarksRecorded(lines: seq<seq<Cell>>, n: nat, env: RenderEnv)
    requires n <= |lines| + 1 && Known(lines, env.hl)
    ensures forall r :: 0 <= r < n ==>
      RectMarks(lines, n, env)[r] == |GridRects(lines, r, env)| && TextMarks(lines, n, env)[r] == |GridTexts(lines, r, env)|
  {
    if n > 0 {
      MarksRecorded(lines, n - 1, env);
    }
  }

  /**
   * `RenderToWindow`: nothing happens unless the grid has the window's
   * size; then every cell's quads are written row by row, the quad counts
   * after each row are recorded, and each render target gets the draws of
   * its rows.
   */
  method RenderToWindow(winWidth: nat, winHeight: nat, grid: GridLines,
                        rectData: QuadRenderData<RectQuad>, textData: QuadRenderData<TextQuad>,
                        env: RenderEnv, infos: seq<RenderInfo>)
    returns (out: Option<Rendered>)
    requires Shaped(grid) && Known(grid.lines, env.hl)
    requires rectData.Valid() && textData.Valid() && rectData.indices != textData.indices
    requires winWidth * winHeight <= rectData.quads.Length && winWidth * winHeight <= textData.quads.Length
    requires forall i :: 0 <= i < |infos| ==> infos[i].range.start <= infos[i].range.end <= grid.height
    modifies rectData`quadCount, rectData`vertexCount, rectData`indexCount, rectData.indices, rectData.quads
    modifies textData`quadCount, textData`vertexCount, textData`indexCount, textData.indices, textData.quads
    ensures out.None? <==> grid.width != winWidth || grid.height != winHeight
    ensures out.None? ==> unchanged(rectData, textData, rectData.indices, rectData.quads, textData.indices, textData.quads)
    ensures out.Some? ==> rectData.Valid() && textData.Valid()
    ensures out.Some? ==> rectData.quadCount <= rectData.quads.Length && textData.quadCount <= textData.quads.Length
    ensures out.Some? ==>
      && rectData.quads[..rectData.quadCount] == GridRects(grid.lines, grid.height, env)
      && textData.quads[..textData.quadCount] == GridTexts(grid.lines, grid.height, env)
    ensures out.Some? ==> Marks(out.value.rectIntervals, out.value.textIntervals, grid.lines, env)
    ensures out.Some? ==> |out.value.passes| == |infos|
    ensures out.Some? ==> forall i :: 0 <= i < |infos| ==> PassFor(infos[i], out.value.passes[i], grid.lines, env)
  {
    if grid.width != winWidth || grid.height != winHeight {
      return None;
    }
    var rectIntervals, textIntervals := EmitGrid(rectData, textData, grid, env);
    var passes := PlanPasses(rectData, textData, grid.lines, env, rectIntervals, textIntervals, infos);
    out := Some(Rendered(rectIntervals, textIntervals, passes));
  }

  /**
   * The row loop of `RenderToWindow`: counters reset, each line's quads
   * written in turn with the pen moving down one cell height per line, and
   * the quad counts recorded before every line and after the last.
   */
  method EmitGrid(rectData: QuadRenderData<RectQuad>, textData: QuadRenderData<TextQuad>,
                  grid: GridLines, env: RenderEnv)
    returns (rectIntervals: seq<int>, textIntervals: seq<int>)
    requires Shaped(grid) && Known(grid.lines, env.hl)
    requires rectData.Valid() && textData.Valid() && rectData.indices != textData.indices
    requires grid.width * grid.height <= rectData.quads.Length && grid.width * grid.height <= textData.quads.Length
    modifies rectData`quadCount, rectData`vertexCount, rectData`indexCount, rectData.indices, rectData.quads
    modifies textData`quadCount, textData`vertexCount, textData`indexCount, textData.indices, textData.quads
    ensures rectData.Valid() && textData.Valid()
    ensures rectData.quadCount <= rectData.quads.Length && textData.quadCount <= textData.quads.Length
    ensures rectData.quads[..rectData.quadCount] == GridRects(grid.lines, grid.height, env)
    ensures textData.quads[..textData.quadCount] == GridTexts(grid.lines, grid.height, env)
    ensures Marks(rectIntervals, textIntervals, grid.lines, env)
  {
    var rows := |grid.lines|;
    rectIntervals, textIntervals := [], [];
    rectData.ResetCounts();
    textData.ResetCounts();

    var offsetY := 0.0;
    var row := 0;
    while row < rows
      invariant 0 <= row <= rows
      invariant offsetY == Advanced(row, env.charSize.y)
      invariant rectData.Valid() && textData.Valid()
      invariant rectData.quadCount <= rectData.quads.Length && textData.quadCount <= textData.quads.Length
      invariant rectData.quads[..rectData.quadCount] == GridRects(grid.lines, row, env)
      invariant textData.quads[..textData.quadCount] == GridTexts(grid.lines, row, env)
      invariant rectIntervals == RectMarks(grid.lines, row, env)
      invariant textIntervals == TextMarks(grid.lines, row, env)
    {
      rectIntervals, textIntervals := EmitGridRow(rectData, textData, grid, row, offsetY, env, rectIntervals, textIntervals);
      offsetY := offsetY + env.charSize.y;
      row := row + 1;
    }
    rectIntervals := rectIntervals + [rectData.quadCount];
    textIntervals := textIntervals + [textData.quadCount];
    assert |rectData.quads[..rectData.quadCount]| == rectData.quadCount;
    assert |textData.quads[..textData.quadCount]| == textData.quadCount;
    assert rectIntervals == RectMarks(grid.lines, rows + 1, env);
    assert textIntervals == TextMarks(grid.lines, rows + 1, env);
    MarksComplete(grid.lines, env);
  }

  /**
   * One pass of the row loop: the quad counts recorded as row `row`'s marks,
   * then line `row` appended after the quads of the rows before it.
   */
  method EmitGridRow(rectData: QuadRenderData<RectQuad>, textData: QuadRenderData<TextQuad>,
                     grid: GridLines, row: nat, offsetY: real, env: RenderEnv,
                     rectMarks: seq<int>, textMarks: seq<int>)
    returns (rectIntervals: seq<int>, textIntervals: seq<int>)
    requires Shaped(grid) && Known(grid.lines, env.hl) && row < |grid.lines|
    requires rectData.Valid() && textData.Valid() && rectData.indices != textData.indices
    requires grid.width * grid.height <= rectData.quads.Length && grid.width * grid.height <= textData.quads.Length
    requires offsetY == Advanced(row, env.charSize.y)
    requires rectData.quadCount <= rectData.quads.Length && textData.quadCount <= textData.quads.Length
    requires rectData.quads[..rectData.quadCount] == GridRects(grid.lines, row, env)
    requires textData.quads[..textData.quadCount] == GridTexts(grid.lines, row, env)
    requires rectMarks == RectMarks(grid.lines, row, env) && textMarks == TextMarks(grid.lines, row, env)
    modifies rectData`quadCount, rectData`vertexCount, rectData`indexCount, rectData.indices, rectData.quads
    modifies textData`quadCount, textData`vertexCount, textData`indexCount, textData.indices, textData.quads
    ensures rectData.Valid() && textData.Valid()
    ensures rectData.quadCount <= rectData.quads.Length && textData.quadCount <= textData.quads.Length
    ensures rectData.quads[..rectData.quadCount] == GridRects(grid.lines, row + 1, env)
    ensures textData.quads[..textData.quadCount] == GridTexts(grid.lines, row + 1, env)
    ensures rectIntervals == RectMarks(grid.lines, row + 1, env) && textIntervals == TextMarks(grid.lines, row + 1, env)
  {
    rectIntervals := rectMarks + [rectData.quadCount];
    textIntervals := textMarks + [textData.quadCount];
    GridQuadsBounded(grid, row, env);
    RoomForRow(row, grid.width, grid.height);
    EmitRow(rectData, textData, grid.lines[row], row, offsetY, env);
  }

  /**
   * The inner loop of `RenderToWindow`: the cells of line `row`, left to
   * right, with the pen at height `offsetY` advancing one cell each.
   */
  method EmitRow(rectData: QuadRenderData<RectQuad>, textData: QuadRenderData<TextQuad>,
                 line: seq<Cell>, row: nat, offsetY: real, env: RenderEnv)
    requires rectData.Valid() && textData.Valid() && rectData.indices != textData.indices
    requires LineKnown(line, env.hl) && offsetY == Advanced(row, env.charSize.y)
    requires rectData.quadCount + |line| <= rectData.quads.Length
    requires textData.quadCount + |line| <= textData.quads.Length
    modifies rectData`quadCount, rectData`vertexCount, rectData`indexCount, rectData.indices, rectData.quads
    modifies textData`quadCount, textData`vertexCount, textData`indexCount, textData.indices, textData.quads
    ensures rectData.Valid() && textData.Valid()
    ensures rectData.quadCount <= rectData.quads.Length && textData.quadCount <= textData.quads.Length
    ensures rectData.quads[..rectData.quadCount] == old(rectData.quads[..rectData.quadCount]) + RowRects(line, row, |line|, env)
    ensures textData.quads[..textData.quadCount] == old(textData.quads[..textData.quadCount]) + RowTexts(line, row, |line|, env)
  {
    ghost var rects0 := rectData.quads[..rectData.quadCount];
    ghost var texts0 := textData.quads[..textData.quadCount];
    var offset := Vec2(0.0, offsetY);
    var col := 0;
    while col < |line|
      invariant 0 <= col <= |line|
      invariant rectData.Valid() && textData.Valid()
      invariant offset == CellOffset(row, col, env.charSize)
      invariant rectData.quadCount == |rects0| + |RowRects(line, row, col, env)|
      invariant textData.quadCount == |texts0| + |RowTexts(line, row, col, env)|
      invariant rectData.quadCount + |line| - col <= rectData.quads.Length
      invariant textData.quadCount + |line| - col <= textData.quads.Length
      invariant rectData.quads[..rectData.quadCount] == rects0 + RowRects(line, row, col, env)
      invariant textData.quads[..textData.quadCount] == texts0 + RowTexts(line, row, col, env)
    {
      EmitCell(rectData, textData, line[col], offset, env);
      offset := Vec2(offset.x + env.charSize.x, offset.y);
      col := col + 1;
    }
  }

  /**
   * The pass loop of `RenderToWindow`: for each render target, the rect
   * pass (loading the target when a region is to be cleared, with that
   * region's clear quad) and the text pass, each drawing the quads between
   * the marks of the target's first and last row.
   */
  method PlanPasses(rectData: QuadRenderData<RectQuad>, textData: QuadRenderData<TextQuad>,
                    lines: seq<seq<Cell>>, env: RenderEnv,
                    rectIntervals: seq<int>, textIntervals: seq<int>, infos: seq<RenderInfo>)
    returns (passes: seq<Passes>)
    requires Known(lines, env.hl) && Marks(rectIntervals, textIntervals, lines, env)
    requires rectData.quadCount == rectIntervals[|lines|] && textData.quadCount == textIntervals[|lines|]
    requires forall i :: 0 <= i < |infos| ==> infos[i].range.start <= infos[i].range.end <= |lines|
    ensures |passes| == |infos|
    ensures forall i :: 0 <= i < |infos| ==> PassFor(infos[i], passes[i], lines, env)
  {
    passes := [];
    var i := 0;
    while i < |infos|
      invariant 0 <= i <= |infos|
      invariant |passes| == i
      invariant forall j :: 0 <= j < i ==> PassFor(infos[j], passes[j], lines, env)
    {
      var p := PlanPass(rectData, textData, lines, env, rectIntervals, textIntervals, infos[i]);
      passes := passes + [p];
      i := i + 1;
    }
  }

  /** The body of the pass loop: the two passes of one render target. */
  method PlanPass(rectData: QuadRenderData<RectQuad>, textData: QuadRenderData<TextQuad>,
                  lines: seq<seq<Cell>>, env: RenderEnv,
                  rectIntervals: seq<int>, textIntervals: seq<int>, info: RenderInfo)
    returns (p: Passes)
    requires Known(lines, env.hl) && Marks(rectIntervals, textIntervals, lines, env)
    requires rectData.quadCount == rectIntervals[|lines|] && textData.quadCount == textIntervals[|lines|]
    requires info.range.start <= info.range.end <= |lines|
    ensures PassFor(info, p, lines, env)
  {
    var clearQuad := None;
    if info.clearRegion.Some? {
      clearQuad := Some(info.clearRegion.value.Region());
    }
    GridPrefix(lines, info.range.start, info.range.end, env);
    GridPrefix(lines, info.range.end, |lines|, env);
    var rectStart, rectEnd := rectIntervals[info.range.start], rectIntervals[info.range.end];
    var rectDraw := None;
    if rectStart != rectEnd {
      rectDraw := Some(rectData.Render(rectStart, rectEnd - rectStart));
    }
    var textStart, textEnd := textIntervals[info.range.start], textIntervals[info.range.end];
    var textDraw := None;
    if textStart != textEnd {
      textDraw := Some(textData.Render(textStart, textEnd - textStart));
    }
    p := Passes(info.texture, info.clearRegion.Some?, clearQuad, rectDraw, textDraw);
  }

  /**
   * The cursor's colors: the highlight's foreground and background, swapped
   * for the default highlight 0 so that the cursor shows the text inverted.
   */
  function CursorColors(attrId: int, hl: HlTable, fgOf: Highlight -> Rgba, bgOf: Highlight -> Rgba): (r: (Rgba, Rgba))
    requires attrId in hl
    ensures attrId == 0 ==> r == (bgOf(hl[attrId]), fgOf(hl[attrId]))
    ensures attrId != 0 ==> r == (fgOf(hl[attrId]), bgOf(hl[attrId]))
  {
    var h := hl[attrId];
    var foreground, background := fgOf(h), bgOf(h);
    if attrId == 0 then (background, foreground) else (foreground, background)
  }

  datatype CursorQuad = CursorQuad(positions: Corners, foreground: Rgba, background: Rgba)

  /**
   * `RenderCursor`: the cursor's single quad, its corners moved to the
   * cursor's position, in the cursor colors; the pass draws that one quad.
   */
  method RenderCursor(cursorData: QuadRenderData<CursorQuad>, pos: Vec2, corners: Corners, attrId: int,
                      hl: HlTable, fgOf: Highlight -> Rgba, bgOf: Highlight -> Rgba)
    returns (draw: DrawCall)
    requires attrId in hl
    requires cursorData.Valid() && cursorData.quads.Length >= 1
    modifies cursorData`quadCount, cursorData`vertexCount, cursorData`indexCount, cursorData.indices, cursorData.quads
    ensures cursorData.Valid() && cursorData.quadCount == 1
    ensures var (fg, bg) := CursorColors(attrId, hl, fgOf, bgOf);
      cursorData.quads[0] == CursorQuad(Translate(corners, pos), fg, bg)
    ensures draw == DrawCall(0, 6)
  {
    var h := hl[attrId];
    var foreground, background := fgOf(h), bgOf(h);
    if attrId == 0 {
      foreground, background := background, foreground;
    }
    cursorData.ResetCounts();
    var slot := cursorData.NextQuad();
    cursorData.quads[slot] := CursorQuad(Translate(corners, pos), foreground, background);
    draw := cursorData.Render(0, 0);
  }
}
