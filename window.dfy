/**
 * The window manager of src/editor/window.cpp: one window per Neovim grid,
 * kept in a map from grid id, created or updated by the `win_pos`,
 * `win_float_pos` and `msg_set_pos` events, with its render data sized to
 * the grid, a smooth-scroll clock, margin quads and mouse hit-testing.
 * Textures and GPU buffers are abstracted to what the manager decides about
 * them: their identity, size, position and quad capacity.
 */
module Windows {
  import opened Region
  import opened Wrappers
  import Sorting
  import opened Frames

  /** A grid of the grid manager, as far as the window manager uses it. */
  datatype Grid = Grid(width: nat, height: nat, dirty: bool)

  /** The grid manager the window manager points at; only its grid table is modelled. */
  class GridManager {
    var grids: map<int, Grid>

    constructor(grids: map<int, Grid>)
      ensures this.grids == grids
    {
      this.grids := grids;
    }
  }

  /** Viewport margins in cells. */
  datatype Margins = Margins(top: int, bottom: int, left: int, right: int) {
    predicate Empty() {
      top == 0 && bottom == 0 && left == 0 && right == 0
    }

    /** The margins in pixels for a cell of the given size. */
    function ToFloat(cell: Vec2): (r: FMargins)
      ensures cell.x > 0.0 && cell.y > 0.0 ==> (r == NoFMargins <==> Empty())
    {
      FMargins(top as real * cell.y, bottom as real * cell.y,
               left as real * cell.x, right as real * cell.x)
    }
  }

  /** Viewport margins in pixels. */
  datatype FMargins = FMargins(top: real, bottom: real, left: real, right: real)

  const NoMargins := Margins(0, 0, 0, 0)
  const NoFMargins := FMargins(0.0, 0.0, 0.0, 0.0)

  /**
   * A render texture, identified by the creation number the manager gave it,
   * with the pixel size it was created with and the position its quad was
   * last moved to.
   */
  datatype RenderTex = RenderTex(serial: nat, size: Vec2, pos: Vec2)

  /** `RenderTexture::UpdatePos` on a texture that may not have been created. */
  function MoveTex(t: Option<RenderTex>, pos: Vec2): Option<RenderTex> {
    match t
    case None => None
    case Some(tex) => Some(tex.(pos := pos))
  }

  datatype FloatData = FloatData(focusable: bool, zindex: int)

  /** One quad of the margins' quad data: vertex positions and texture coordinates. */
  datatype MarginQuad = MarginQuad(positions: Corners, uvs: Corners)

  /**
   * A window. `rectCapacity`, `textCapacity` and `marginsCapacity` are the
   * sizes the quad buffers of `rectData`, `textData` and `marginsData` were
   * created with; `marginQuads` holds the quads written into `marginsData`.
   */
  datatype Win = Win(
    id: int,
    startRow: int, startCol: int,
    width: nat, height: nat,
    hidden: bool,
    floatData: Option<FloatData>,
    margins: Margins, fmargins: FMargins,
    pos: Vec2, size: Vec2,
    renderTexture: Option<RenderTex>, prevRenderTexture: Option<RenderTex>,
    maskPos: Vec2,
    rectCapacity: nat, textCapacity: nat, marginsCapacity: nat,
    marginQuads: seq<MarginQuad>,
    scrolling: bool, scrollDist: real, scrollElapsed: real, scrollTime: real,
    scrollCurr: real,
    hasPrevRender: bool)

  /** A default-constructed window for grid `id`, as `try_emplace` inserts it. */
  function NewWin(id: int, scrollTime: real): Win {
    Win(id, 0, 0, 0, 0, false, None, NoMargins, NoFMargins, Zero, Zero, None, None,
        Zero, 0, 0, 0, [], false, 0.0, 0.0, scrollTime, 0.0, false)
  }

  function Scale(v: Vec2, k: real): Vec2 { Vec2(v.x * k, v.y * k) }

  /** The window's top-left corner in pixels: its start cell times the cell size. */
  function CellPos(win: Win, cell: Vec2): Vec2 {
    Vec2(win.startCol as real * cell.x, win.startRow as real * cell.y)
  }

  /** The window's extent in pixels: its size in cells times the cell size. */
  function CellSize(win: Win, cell: Vec2): Vec2 {
    Vec2(win.width as real * cell.x, win.height as real * cell.y)
  }

  /** With a positive cell size, equal pixel sizes mean equal sizes in cells. */
  lemma CellSizeInjective(a: Win, b: Win, cell: Vec2)
    requires cell.x > 0.0 && cell.y > 0.0
    ensures CellSize(a, cell) == CellSize(b, cell) <==> a.width == b.width && a.height == b.height
  {
    if CellSize(a, cell) == CellSize(b, cell) {
      Cancel(a.width as real, b.width as real, cell.x);
      Cancel(a.height as real, b.height as real, cell.y);
    }
  }

  lemma Cancel(a: real, b: real, p: real)
    requires p > 0.0 && a * p == b * p
    ensures a == b
  {
  }

  /**
   * The quad buffers hold as many quads as the window's pixel size covers
   * cells: `rectData` and `textData` were last created for the size recorded
   * in `size`.
   */
  ghost predicate SizedBuffers(win: Win, cell: Vec2) {
    && win.rectCapacity == win.textCapacity
    && (win.rectCapacity as real) * (cell.x * cell.y) == win.size.x * win.size.y
  }

  /** Only the capacities and the recorded size matter to `SizedBuffers`. */
  lemma SizedBuffersKept(a: Win, b: Win, cell: Vec2)
    requires SizedBuffers(a, cell)
    requires a.rectCapacity == b.rectCapacity && a.textCapacity == b.textCapacity && a.size == b.size
    ensures SizedBuffers(b, cell)
  {
  }

  lemma Regroup(a: real, b: real, c: real, d: real)
    ensures (a * b) * (c * d) == (a * c) * (b * d)
  {
  }

  /**
   * A window whose recorded pixel size matches its cell geometry has quad
   * buffers for exactly one quad per cell, so the renderer's per-cell quads fit.
   */
  lemma {:induction false} SizedBuffersFit(win: Win, cell: Vec2)
    requires cell.x > 0.0 && cell.y > 0.0
    requires SizedBuffers(win, cell) && win.size == CellSize(win, cell)
    ensures win.rectCapacity == win.textCapacity == win.width * win.height
  {
    var w, h := win.width as real, win.height as real;
    Regroup(w, cell.x, h, cell.y);
    assert (win.width * win.height) as real == w * h;
    assert cell.x * cell.y > 0.0;
    Cancel(win.rectCapacity as real, (win.width * win.height) as real, cell.x * cell.y);
  }

  /**
   * The window after `InitRenderData`: pixel position and size from its
   * cells, a new render texture numbered `serial` (and, when `keepsPrev`,
   * a new previous-frame texture numbered `serial + 1`), the mask moved to the
   * scaled position, and quad buffers for one quad per cell and four margins.
   */
  function Initialised(win: Win, cell: Vec2, dpi: real, serial: nat, keepsPrev: bool): Win {
    var pos, size := CellPos(win, cell), CellSize(win, cell);
    win.(pos := pos, size := size,
         renderTexture := Some(RenderTex(serial, size, pos)),
         prevRenderTexture :=
           if keepsPrev then Some(RenderTex(serial + 1, size, pos)) else win.prevRenderTexture,
         maskPos := Scale(pos, dpi),
         rectCapacity := win.width * win.height, textCapacity := win.width * win.height,
         marginsCapacity := 4)
  }

  /**
   * The window after `UpdateRenderData`: nothing changes when neither pixel
   * position nor size changed; a new size recreates textures and quad
   * buffers; a new position only moves the textures and the mask.
   */
  function Updated(win: Win, cell: Vec2, dpi: real, serial: nat, keepsPrev: bool): Win {
    var pos, size := CellPos(win, cell), CellSize(win, cell);
    if pos == win.pos && size == win.size then win
    else
      var moved := win.(pos := pos, size := size,
                        maskPos := if pos != win.pos then Scale(pos, dpi) else win.maskPos);
      if size != win.size then
        moved.(renderTexture := Some(RenderTex(serial, size, pos)),
               prevRenderTexture :=
                 if keepsPrev then Some(RenderTex(serial + 1, size, pos)) else win.prevRenderTexture,
               rectCapacity := win.width * win.height, textCapacity := win.width * win.height)
      else
        moved.(renderTexture := MoveTex(win.renderTexture, pos),
               prevRenderTexture :=
                 if keepsPrev then MoveTex(win.prevRenderTexture, pos) else win.prevRenderTexture)
  }

  /** How many render textures `UpdateRenderData` creates. */
  function UpdateCreates(win: Win, cell: Vec2, keepsPrev: bool): nat {
    if CellSize(win, cell) != win.size then (if keepsPrev then 2 else 1) else 0
  }

  /**
   * What `UpdateRenderData` promises: it is the identity when position and
   * size are current, it always leaves them current, it only recreates
   * buffers when the size changed, and it keeps the buffers sized.
   */
  lemma {:induction false} UpdatedMeaning(win: Win, cell: Vec2, dpi: real, serial: nat, keepsPrev: bool)
    requires cell.x > 0.0 && cell.y > 0.0
    requires SizedBuffers(win, cell)
    ensures var r := Updated(win, cell, dpi, serial, keepsPrev);
      && r.pos == CellPos(win, cell) && r.size == CellSize(win, cell)
      && r.pos == CellPos(r, cell) && r.size == CellSize(r, cell)
      && (win.pos == CellPos(win, cell) && win.size == CellSize(win, cell) ==> r == win)
      && (r.rectCapacity != win.rectCapacity ==> r.size != win.size)
      && SizedBuffers(r, cell)
      && r.rectCapacity == r.width * r.height
      && r.(pos := win.pos, size := win.size, maskPos := win.maskPos,
            renderTexture := win.renderTexture, prevRenderTexture := win.prevRenderTexture,
            rectCapacity := win.rectCapacity, textCapacity := win.textCapacity) == win
  {
    if CellSize(win, cell) != win.size {
      UpdatedResized(win, cell, dpi, serial, keepsPrev);
    } else {
      UpdatedInPlace(win, cell, dpi, serial, keepsPrev);
    }
  }

  /** `UpdatedMeaning` when the pixel size changed: the window is initialised afresh. */
  lemma UpdatedResized(win: Win, cell: Vec2, dpi: real, serial: nat, keepsPrev: bool)
    requires cell.x > 0.0 && cell.y > 0.0
    requires SizedBuffers(win, cell) && CellSize(win, cell) != win.size
    ensures var r := Updated(win, cell, dpi, serial, keepsPrev);
      && r.pos == CellPos(win, cell) && r.size == CellSize(win, cell)
      && r.pos == CellPos(r, cell) && r.size == CellSize(r, cell)
      && (win.pos == CellPos(win, cell) && win.size == CellSize(win, cell) ==> r == win)
      && (r.rectCapacity != win.rectCapacity ==> r.size != win.size)
      && SizedBuffers(r, cell)
      && r.rectCapacity == r.width * r.height
      && r.(pos := win.pos, size := win.size, maskPos := win.maskPos,
            renderTexture := win.renderTexture, prevRenderTexture := win.prevRenderTexture,
            rectCapacity := win.rectCapacity, textCapacity := win.textCapacity) == win
  {
    var r := Updated(win, cell, dpi, serial, keepsPrev);
    SameCells(r, win, cell);
    InitialisedSized(win, cell, dpi, serial, keepsPrev);
  }

  /** `UpdatedMeaning` when the pixel size is unchanged: the buffers are kept. */
  lemma UpdatedInPlace(win: Win, cell: Vec2, dpi: real, serial: nat, keepsPrev: bool)
    requires cell.x > 0.0 && cell.y > 0.0
    requires SizedBuffers(win, cell) && CellSize(win, cell) == win.size
    ensures var r := Updated(win, cell, dpi, serial, keepsPrev);
      && r.pos == CellPos(win, cell) && r.size == CellSize(win, cell)
      && r.pos == CellPos(r, cell) && r.size == CellSize(r, cell)
      && (win.pos == CellPos(win, cell) && win.size == CellSize(win, cell) ==> r == win)
      && (r.rectCapacity != win.rectCapacity ==> r.size != win.size)
      && SizedBuffers(r, cell)
      && r.rectCapacity == r.width * r.height
      && r.(pos := win.pos, size := win.size, maskPos := win.maskPos,
            renderTexture := win.renderTexture, prevRenderTexture := win.prevRenderTexture,
            rectCapacity := win.rectCapacity, textCapacity := win.textCapacity) == win
  {
    var r := Updated(win, cell, dpi, serial, keepsPrev);
    SameCells(r, win, cell);
    SizedBuffersFit(win, cell);
    SizedBuffersKept(win, r, cell);
  }

  /** The window `Place` stores: initialised when it is new, updated otherwise. */
  function PlacedWin(win: Win, first: bool, cell: Vec2, dpi: real, serial: nat, keepsPrev: bool): Win {
    if first then Initialised(win, cell, dpi, serial, keepsPrev) else Updated(win, cell, dpi, serial, keepsPrev)
  }

  /** How many render textures `Place` creates. */
  function PlaceCreates(win: Win, first: bool, cell: Vec2, keepsPrev: bool): nat {
    if first then (if keepsPrev then 2 else 1) else UpdateCreates(win, cell, keepsPrev)
  }

  /** Windows on the same cells have the same pixel position and size. */
  lemma SameCells(a: Win, b: Win, cell: Vec2)
    requires a.startRow == b.startRow && a.startCol == b.startCol && a.width == b.width && a.height == b.height
    ensures CellPos(a, cell) == CellPos(b, cell) && CellSize(a, cell) == CellSize(b, cell)
  {
  }

  /** `InitRenderData` leaves the buffers sized for the window's cells. */
  lemma {:induction false} InitialisedSized(win: Win, cell: Vec2, dpi: real, serial: nat, keepsPrev: bool)
    ensures var r := Initialised(win, cell, dpi, serial, keepsPrev);
      && r.pos == CellPos(win, cell) && r.size == CellSize(win, cell)
      && r.pos == CellPos(r, cell) && r.size == CellSize(r, cell)
      && SizedBuffers(r, cell)
      && r.rectCapacity == r.width * r.height && r.marginsCapacity == 4
  {
    var w, h := win.width as real, win.height as real;
    Regroup(w, cell.x, h, cell.y);
    assert (win.width * win.height) as real == w * h;
    SameCells(Initialised(win, cell, dpi, serial, keepsPrev), win, cell);
  }

  /**
   * The anchor arithmetic of `FloatPos`: the window's start cell such that
   * its corner named by `anchor` sits at row `north`, column `west`; an
   * unknown anchor keeps the current start cell.
   */
  function AnchorStart(anchor: string, north: int, west: int, width: nat, height: nat,
                       startRow: int, startCol: int): (r: (int, int))
    ensures anchor in {"NW", "NE", "SW", "SE"} ==>
      && (if anchor[0] == 'N' then r.0 else r.0 + height) == north
      && (if anchor[1] == 'W' then r.1 else r.1 + width) == west
    ensures anchor !in {"NW", "NE", "SW", "SE"} ==> r == (startRow, startCol)
  {
    var south, east := north - height, west - width;
    if anchor == "NW" then (north, west)
    else if anchor == "NE" then (north, east)
    else if anchor == "SW" then (south, west)
    else if anchor == "SE" then (south, east)
    else (startRow, startCol)
  }

  function Abs(x: int): nat { if x < 0 then -x else x }

  /** `Viewport`'s test: a scroll that fits inside the rows between the top and bottom margins. */
  predicate ShouldScroll(win: Win, delta: int) {
    0 < Abs(delta) <= win.height - (win.margins.top + win.margins.bottom)
  }

  /** A window that starts scrolling by `delta` rows: the two textures swap. */
  function StartScroll(win: Win, delta: int, cell: Vec2): Win {
    win.(scrolling := true, scrollDist := delta as real * cell.y, scrollElapsed := 0.0,
         renderTexture := win.prevRenderTexture, prevRenderTexture := win.renderTexture)
  }

  /**
   * The scroll offset at eased progress `x`: `sign(dist) * mix(0, |dist|, x)`.
   * It is `dist * x`, so it runs from 0 to the whole distance as `x` goes from 0 to 1.
   */
  function ScrollOffset(dist: real, x: real): (r: real)
    ensures r == dist * x
  {
    var sign := if dist > 0.0 then 1.0 else if dist < 0.0 then -1.0 else 0.0;
    var abs := if dist < 0.0 then -dist else dist;
    sign * (0.0 + (abs - 0.0) * x)
  }

  /** With progress in [0, 1] the offset lies between no scroll and the whole distance. */
  lemma ScrollOffsetBetween(dist: real, x: real)
    requires 0.0 <= x <= 1.0
    ensures dist >= 0.0 ==> 0.0 <= ScrollOffset(dist, x) <= dist
    ensures dist < 0.0 ==> dist <= ScrollOffset(dist, x) <= 0.0
  {
    assert dist - dist * x == dist * (1.0 - x);
  }

  /**
   * One frame of the scroll clock for one window, `dt` seconds long; `ease`
   * is the easing curve. Windows that are not scrolling are untouched; a
   * scroll whose time is up ends and marks the previous frame as rendered.
   */
  function ScrollStep(win: Win, dt: real, ease: real -> real, dpi: real): Win
    requires win.scrollTime > 0.0
  {
    if !win.scrolling then win
    else
      var elapsed := win.scrollElapsed + dt;
      if elapsed >= win.scrollTime then
        win.(scrolling := false, scrollElapsed := 0.0,
             renderTexture := MoveTex(win.renderTexture, win.pos),
             maskPos := Scale(win.pos, dpi), hasPrevRender := true)
      else
        var curr := ScrollOffset(win.scrollDist, ease(elapsed / win.scrollTime));
        win.(scrollElapsed := elapsed, scrollCurr := curr,
             maskPos := Scale(Vec2(win.pos.x, win.pos.y - curr + win.scrollDist), dpi))
  }

  /**
   * A scroll started by `Viewport` and a first frame at least as long as the
   * scroll time: the scroll ends, with the texture that was current before
   * the swap kept as the previous render.
   */
  lemma {:induction false} ScrollEnds(win: Win, delta: int, cell: Vec2, dt: real, ease: real -> real, dpi: real)
    requires win.scrollTime > 0.0 && dt >= win.scrollTime
    ensures var s := ScrollStep(StartScroll(win, delta, cell), dt, ease, dpi);
      && !s.scrolling && s.scrollElapsed == 0.0 && s.hasPrevRender
      && s.prevRenderTexture == win.renderTexture
      && s.renderTexture == MoveTex(win.prevRenderTexture, win.pos)
  {
  }

  /** A frame shorter than the remaining scroll time keeps the window scrolling. */
  lemma ScrollContinues(win: Win, dt: real, ease: real -> real, dpi: real)
    requires win.scrollTime > 0.0 && win.scrolling && win.scrollElapsed + dt < win.scrollTime
    ensures var s := ScrollStep(win, dt, ease, dpi);
      s.scrolling && s.scrollElapsed == win.scrollElapsed + dt
      && s.renderTexture == win.renderTexture && s.prevRenderTexture == win.prevRenderTexture
  {
  }

  /** Successive frames of the scroll clock, `dts[k]` seconds each. */
  function ScrollFrames(win: Win, dts: seq<real>, ease: real -> real, dpi: real): Win
    requires win.scrollTime > 0.0
    decreases |dts|
  {
    if dts == [] then win
    else ScrollFrames(ScrollStep(win, dts[0], ease, dpi), dts[1..], ease, dpi)
  }

  /** A window that is not scrolling is left alone by any number of frames. */
  lemma {:induction false} IdleFrames(win: Win, dts: seq<real>, ease: real -> real, dpi: real)
    requires win.scrollTime > 0.0 && !win.scrolling
    ensures ScrollFrames(win, dts, ease, dpi) == win
    decreases |dts|
  {
    if dts != [] {
      IdleFrames(win, dts[1..], ease, dpi);
    }
  }

  /**
   * A scroll runs until the frames' time adds up to the scroll time: frames
   * whose times reach it end the scroll, with the clock reset and the
   * previous frame marked rendered; shorter non-negative frames keep it
   * scrolling, with their times added to the clock. A scrolling window's
   * clock is below the scroll time: `StartScroll` sets it to zero and
   * `ScrollStep` only keeps scrolling below it.
   */
  lemma {:induction false} ScrollRunsItsTime(win: Win, dts: seq<real>, ease: real -> real, dpi: real)
    requires win.scrollTime > 0.0 && win.scrolling && win.scrollElapsed < win.scrollTime
    ensures var s := ScrollFrames(win, dts, ease, dpi);
      win.scrollElapsed + Duration(dts) >= win.scrollTime ==> !s.scrolling && s.scrollElapsed == 0.0 && s.hasPrevRender
    ensures var s := ScrollFrames(win, dts, ease, dpi);
      NonNegative(dts) && win.scrollElapsed + Duration(dts) < win.scrollTime ==>
        s.scrolling && s.scrollElapsed == win.scrollElapsed + Duration(dts)
    decreases |dts|
  {
    if dts != [] {
      var next := ScrollStep(win, dts[0], ease, dpi);
      if next.scrolling {
        ScrollRunsItsTime(next, dts[1..], ease, dpi);
      } else {
        IdleFrames(next, dts[1..], ease, dpi);
        if NonNegative(dts) {
          DurationNonNegative(dts[1..]);
        }
      }
    }
  }

  /** Component-wise division; a zero divisor gives 0 instead of an IEEE infinity. */
  function DivBy(v: Vec2, d: Vec2): Vec2 {
    Vec2(if d.x == 0.0 then 0.0 else v.x / d.x, if d.y == 0.0 then 0.0 else v.y / d.y)
  }

  /** The pixel box of the top margin: it spans the window's width. */
  function TopBand(winSize: Vec2, fm: FMargins): Rect {
    Rect(Zero, Vec2(winSize.x, fm.top))
  }

  /** The pixel box of the bottom margin: it spans the window's width. */
  function BottomBand(winSize: Vec2, fm: FMargins): Rect {
    Rect(Vec2(0.0, winSize.y - fm.bottom), Vec2(winSize.x, fm.bottom))
  }

  /** The pixel box of the left margin: it fills the height between the top and bottom bands. */
  function LeftBand(winSize: Vec2, fm: FMargins): Rect {
    Rect(Vec2(0.0, fm.top), Vec2(fm.left, winSize.y - fm.top - fm.bottom))
  }

  /** The pixel box of the right margin: it fills the height between the top and bottom bands. */
  function RightBand(winSize: Vec2, fm: FMargins): Rect {
    Rect(Vec2(winSize.x - fm.right, fm.top), Vec2(fm.right, winSize.y - fm.top - fm.bottom))
  }

  /**
   * One margin quad for the box `b` of a window at `winPos` of extent
   * `winSize`: its vertices are the box moved to the window, its texture
   * coordinates the box as a fraction of the window's extent.
   */
  function MarginQuadAt(winPos: Vec2, winSize: Vec2, b: Rect): MarginQuad {
    MarginQuad(Translate(MakeRegion(b.pos, b.size), winPos), MakeRegion(DivBy(b.pos, winSize), DivBy(b.size, winSize)))
  }

  /**
   * The margin quad as src/editor/window.cpp builds it: the texture
   * coordinates divide the extent by the window's size but keep the position
   * in pixels.
   */
  function MarginQuadAtAsWritten(winPos: Vec2, winSize: Vec2, b: Rect): MarginQuad {
    MarginQuad(Translate(MakeRegion(b.pos, b.size), winPos), MakeRegion(b.pos, DivBy(b.size, winSize)))
  }

  /**
   * A one-cell bottom margin of 20 pixels in a 100 x 100 window: as written,
   * the quad's first texture coordinate is (0, 80), far outside the texture,
   * where the corrected quad samples (0, 0.8).
   */
  lemma MarginUvAsWrittenLeavesTexture()
    ensures var size := Vec2(100.0, 100.0);
      var q := MarginQuadAtAsWritten(Zero, size, Rect(Vec2(0.0, 80.0), Vec2(100.0, 20.0)));
      && q.uvs[0] == Vec2(0.0, 80.0) && !InUnitBox(q.uvs[0])
      && MarginQuadAt(Zero, size, Rect(Vec2(0.0, 80.0), Vec2(100.0, 20.0))).uvs[0] == Vec2(0.0, 0.8)
  {
  }

  function Count(b: bool): nat { if b then 1 else 0 }

  /**
   * The margin quads with corrected texture coordinates, which
   * `ViewportMargins` stores: one per non-zero margin, in the order top,
   * bottom, left, right.
   */
  function MarginQuads(winPos: Vec2, winSize: Vec2, m: Margins, fm: FMargins): (r: seq<MarginQuad>)
    ensures |r| == Count(m.top != 0) + Count(m.bottom != 0) + Count(m.left != 0) + Count(m.right != 0)
    ensures |r| <= 4
    ensures |r| == 0 <==> m.Empty()
  {
    Band(m.top != 0, MarginQuadAt(winPos, winSize, TopBand(winSize, fm)))
    + Band(m.bottom != 0, MarginQuadAt(winPos, winSize, BottomBand(winSize, fm)))
    + Band(m.left != 0, MarginQuadAt(winPos, winSize, LeftBand(winSize, fm)))
    + Band(m.right != 0, MarginQuadAt(winPos, winSize, RightBand(winSize, fm)))
  }

  /**
   * The margin quads src/editor/window.cpp writes: the same bands in the
   * same order, each built by `MarginQuadAtAsWritten`.
   */
  function MarginQuadsAsWritten(winPos: Vec2, winSize: Vec2, m: Margins, fm: FMargins): (r: seq<MarginQuad>)
    ensures |r| == |MarginQuads(winPos, winSize, m, fm)|
  {
    Band(m.top != 0, MarginQuadAtAsWritten(winPos, winSize, TopBand(winSize, fm)))
    + Band(m.bottom != 0, MarginQuadAtAsWritten(winPos, winSize, BottomBand(winSize, fm)))
    + Band(m.left != 0, MarginQuadAtAsWritten(winPos, winSize, LeftBand(winSize, fm)))
    + Band(m.right != 0, MarginQuadAtAsWritten(winPos, winSize, RightBand(winSize, fm)))
  }

  function Band(present: bool, q: MarginQuad): seq<MarginQuad> { if present then [q] else [] }

  ghost predicate InBox(v: Vec2, pos: Vec2, size: Vec2) {
    pos.x <= v.x <= pos.x + size.x && pos.y <= v.y <= pos.y + size.y
  }

  ghost predicate InUnitBox(v: Vec2) {
    0.0 <= v.x <= 1.0 && 0.0 <= v.y <= 1.0
  }

  /** The box `b` lies inside a window of extent `winSize`, in window-relative pixels. */
  ghost predicate Fits(b: Rect, winSize: Vec2) {
    && 0.0 <= b.pos.x && 0.0 <= b.size.x && b.pos.x + b.size.x <= winSize.x
    && 0.0 <= b.pos.y && 0.0 <= b.size.y && b.pos.y + b.size.y <= winSize.y
  }

  /** With non-negative pixel margins that fit, each of the four bands lies inside the window. */
  lemma BandsFit(winSize: Vec2, fm: FMargins)
    requires fm.top >= 0.0 && fm.bottom >= 0.0 && fm.left >= 0.0 && fm.right >= 0.0
    requires fm.top + fm.bottom <= winSize.y && fm.left + fm.right <= winSize.x
    ensures Fits(TopBand(winSize, fm), winSize) && Fits(BottomBand(winSize, fm), winSize)
    ensures Fits(LeftBand(winSize, fm), winSize) && Fits(RightBand(winSize, fm), winSize)
  {
  }

  /**
   * When the pixel margins are non-negative and fit inside the window, every
   * corrected margin quad lies inside the window and its texture coordinates
   * inside the unit square.
   */
  lemma {:induction false} MarginQuadsInsideWindow(winPos: Vec2, winSize: Vec2, m: Margins, fm: FMargins)
    requires winSize.x > 0.0 && winSize.y > 0.0
    requires fm.top >= 0.0 && fm.bottom >= 0.0 && fm.left >= 0.0 && fm.right >= 0.0
    requires fm.top + fm.bottom <= winSize.y && fm.left + fm.right <= winSize.x
    ensures forall q :: q in MarginQuads(winPos, winSize, m, fm) ==> QuadIn(q, winPos, winSize)
  {
    var top, bottom := TopBand(winSize, fm), BottomBand(winSize, fm);
    var left, right := LeftBand(winSize, fm), RightBand(winSize, fm);
    BandsFit(winSize, fm);
    QuadInside(winPos, winSize, top);
    QuadInside(winPos, winSize, bottom);
    QuadInside(winPos, winSize, left);
    QuadInside(winPos, winSize, right);
    forall q | q in MarginQuads(winPos, winSize, m, fm)
      ensures QuadIn(q, winPos, winSize)
    {
      InBands(q, m.top != 0, MarginQuadAt(winPos, winSize, top), m.bottom != 0, MarginQuadAt(winPos, winSize, bottom),
              m.left != 0, MarginQuadAt(winPos, winSize, left), m.right != 0, MarginQuadAt(winPos, winSize, right));
    }
  }

  /**
   * What the written margin quads are: when the margins fit, every quad lies
   * inside the window, and its texture coordinates start at the quad's own
   * pixel offset in the window, with its extent as a fraction of the window's.
   */
  lemma {:induction false} MarginQuadsAsWrittenMeaning(winPos: Vec2, winSize: Vec2, m: Margins, fm: FMargins)
    requires winSize.x > 0.0 && winSize.y > 0.0
    requires fm.top >= 0.0 && fm.bottom >= 0.0 && fm.left >= 0.0 && fm.right >= 0.0
    requires fm.top + fm.bottom <= winSize.y && fm.left + fm.right <= winSize.x
    ensures forall q :: q in MarginQuadsAsWritten(winPos, winSize, m, fm) ==>
      && VerticesIn(q, winPos, winSize)
      && q.uvs == MakeRegion(q.positions[0].Sub(winPos), DivBy(RegionSize(q.positions), winSize))
  {
    var top, bottom := TopBand(winSize, fm), BottomBand(winSize, fm);
    var left, right := LeftBand(winSize, fm), RightBand(winSize, fm);
    BandsFit(winSize, fm);
    AsWrittenShape(winPos, winSize, top);
    AsWrittenShape(winPos, winSize, bottom);
    AsWrittenShape(winPos, winSize, left);
    AsWrittenShape(winPos, winSize, right);
    forall q | q in MarginQuadsAsWritten(winPos, winSize, m, fm)
      ensures VerticesIn(q, winPos, winSize)
      ensures q.uvs == MakeRegion(q.positions[0].Sub(winPos), DivBy(RegionSize(q.positions), winSize))
    {
      InBands(q, m.top != 0, MarginQuadAtAsWritten(winPos, winSize, top),
              m.bottom != 0, MarginQuadAtAsWritten(winPos, winSize, bottom),
              m.left != 0, MarginQuadAtAsWritten(winPos, winSize, left),
              m.right != 0, MarginQuadAtAsWritten(winPos, winSize, right));
    }
  }

  /** A quad of four optional bands is one of the four. */
  lemma InBands(q: MarginQuad, p0: bool, q0: MarginQuad, p1: bool, q1: MarginQuad,
                p2: bool, q2: MarginQuad, p3: bool, q3: MarginQuad)
    requires q in Band(p0, q0) + Band(p1, q1) + Band(p2, q2) + Band(p3, q3)
    ensures q == q0 || q == q1 || q == q2 || q == q3
  {
  }

  /** Every vertex of quad `q` lies in the window. */
  ghost predicate VerticesIn(q: MarginQuad, winPos: Vec2, winSize: Vec2) {
    forall i :: 0 <= i < 4 ==> InBox(q.positions[i], winPos, winSize)
  }

  /** Every vertex of quad `q` lies in the window, and every texture coordinate in the unit square. */
  ghost predicate QuadIn(q: MarginQuad, winPos: Vec2, winSize: Vec2) {
    VerticesIn(q, winPos, winSize) && forall i :: 0 <= i < 4 ==> InUnitBox(q.uvs[i])
  }

  /** A box inside the window gives a quad inside the window, sampling inside the texture. */
  lemma QuadInside(winPos: Vec2, winSize: Vec2, b: Rect)
    requires winSize.x > 0.0 && winSize.y > 0.0 && Fits(b, winSize)
    ensures QuadIn(MarginQuadAt(winPos, winSize, b), winPos, winSize)
  {
    UnitRatio(b.pos.x, b.size.x, winSize.x);
    UnitRatio(b.pos.y, b.size.y, winSize.y);
  }

  /** A box inside the window gives an as-written quad inside the window, sampling from its pixel offset. */
  lemma AsWrittenShape(winPos: Vec2, winSize: Vec2, b: Rect)
    requires Fits(b, winSize)
    ensures var q := MarginQuadAtAsWritten(winPos, winSize, b);
      && VerticesIn(q, winPos, winSize)
      && q.uvs == MakeRegion(q.positions[0].Sub(winPos), DivBy(RegionSize(q.positions), winSize))
  {
    var q := MarginQuadAtAsWritten(winPos, winSize, b);
    assert q.positions[0].Sub(winPos) == b.pos;
    assert RegionSize(q.positions) == b.size;
  }

  /** Fractions of an extent: a start and an end inside it stay inside [0, 1]. */
  lemma UnitRatio(p: real, s: real, d: real)
    requires d > 0.0 && 0.0 <= p && 0.0 <= s && p + s <= d
    ensures 0.0 <= p / d && 0.0 <= s / d && p / d + s / d <= 1.0
  {
    assert p / d + s / d == (p + s) / d;
  }

  /** C++'s float-to-int conversion: truncation toward zero. */
  function Trunc(x: real): (r: int)
    ensures x >= 0.0 ==> r as real <= x < r as real + 1.0
    ensures x < 0.0 ==> r as real - 1.0 < x <= r as real
  {
    if x >= 0.0 then x.Floor else -((-x).Floor)
  }

  function Max(a: int, b: int): int { if a >= b then a else b }

  datatype MouseInfo = MouseInfo(grid: int, row: int, col: int)

  /** A window's cell rectangle [startRow, startRow + height) x [startCol, startCol + width) holds the cell. */
  predicate InCells(win: Win, row: int, col: int) {
    win.startRow <= row < win.startRow + win.height
    && win.startCol <= col < win.startCol + win.width
  }

  /** A window's z-index; a window that does not float counts as 0. */
  function ZIndex(win: Win): int {
    match win.floatData
    case Some(f) => f.zindex
    case None => 0
  }

  /** The cell relative to a window, clamped at its top-left corner. */
  function RelativeCell(grid: int, win: Win, row: int, col: int): (r: MouseInfo)
    ensures r.grid == grid && r.row >= 0 && r.col >= 0
    ensures InCells(win, row, col) ==>
      win.startRow + r.row == row && win.startCol + r.col == col
      && r.row < win.height && r.col < win.width
  {
    MouseInfo(grid, Max(row - win.startRow, 0), Max(col - win.startCol, 0))
  }

  /** "Not after" for the hit-test order: higher z-index first. */
  function ZOrder(): ((int, Win), (int, Win)) -> bool {
    (a: (int, Win), b: (int, Win)) => ZIndex(a.1) >= ZIndex(b.1)
  }

  lemma ZOrderIsTotalPreorder()
    ensures Sorting.TotalPreorder(ZOrder())
  {
  }

  /**
   * The loop of `UpdateScrolling` over all windows: every window takes one
   * frame of its scroll clock; `any` says whether some window was scrolling.
   */
  method ScrollAll(windows: map<int, Win>, dt: real, ease: real -> real, dpi: real)
    returns (ws: map<int, Win>, any: bool)
    requires forall k :: k in windows ==> windows[k].scrollTime > 0.0
    ensures ws.Keys == windows.Keys
    ensures forall k :: k in ws ==> ws[k] == ScrollStep(windows[k], dt, ease, dpi)
    ensures any <==> exists k :: k in windows && windows[k].scrolling
  {
    ws := windows;
    var rest := windows.Keys;
    any := false;
    while rest != {}
      invariant rest <= windows.Keys && ws.Keys == windows.Keys
      invariant forall k :: k in ws && k !in rest ==> ws[k] == ScrollStep(windows[k], dt, ease, dpi)
      invariant forall k :: k in rest ==> ws[k] == windows[k]
      invariant any <==> exists k :: k in windows && k !in rest && windows[k].scrolling
      decreases rest
    {
      NonEmptyHasMember(rest);
      var id :| id in rest;
      var win := ws[id];
      if win.scrolling {
        win := ScrollFrame(win, dt, ease, dpi);
        any := true;
        ws := ws[id := win];
      }
      rest := rest - {id};
    }
  }

  /** The body of `UpdateScrolling`'s loop for one window that is scrolling. */
  method ScrollFrame(win: Win, dt: real, ease: real -> real, dpi: real) returns (w: Win)
    requires win.scrollTime > 0.0 && win.scrolling
    ensures w == ScrollStep(win, dt, ease, dpi)
  {
    w := win.(scrollElapsed := win.scrollElapsed + dt);
    if w.scrollElapsed >= w.scrollTime {
      w := w.(scrolling := false, scrollElapsed := 0.0);
      w := w.(renderTexture := MoveTex(w.renderTexture, w.pos));
      w := w.(maskPos := Scale(w.pos, dpi));
      w := w.(hasPrevRender := true);
    } else {
      var t := w.scrollElapsed / w.scrollTime;
      w := w.(scrollCurr := ScrollOffset(w.scrollDist, ease(t)));
      var pos := Vec2(w.pos.x, w.pos.y - w.scrollCurr + w.scrollDist);
      w := w.(maskPos := Scale(pos, dpi));
    }
  }

  /** A frame of the scroll clock keeps the window's identity, size and buffers. */
  lemma ScrollStepKeeps(win: Win, dt: real, ease: real -> real, dpi: real, cell: Vec2)
    requires win.scrollTime > 0.0 && SizedBuffers(win, cell)
    ensures var s := ScrollStep(win, dt, ease, dpi);
      s.id == win.id && s.scrollTime == win.scrollTime && SizedBuffers(s, cell)
  {
    SizedBuffersKept(win, ScrollStep(win, dt, ease, dpi), cell);
  }

  /**
   * The corrected margin quads `ViewportMargins` stores, built in the order
   * of the `SetData` calls, one per non-zero margin.
   */
  method WriteMarginQuads(winPos: Vec2, winSize: Vec2, m: Margins, fm: FMargins)
    returns (quads: seq<MarginQuad>)
    ensures quads == MarginQuads(winPos, winSize, m, fm)
  {
    quads := [];
    if m.top != 0 {
      quads := quads + [MarginQuadAt(winPos, winSize, TopBand(winSize, fm))];
    }
    assert quads == Band(m.top != 0, MarginQuadAt(winPos, winSize, TopBand(winSize, fm)));
    if m.bottom != 0 {
      quads := quads + [MarginQuadAt(winPos, winSize, BottomBand(winSize, fm))];
    }
    assert quads == Band(m.top != 0, MarginQuadAt(winPos, winSize, TopBand(winSize, fm)))
                    + Band(m.bottom != 0, MarginQuadAt(winPos, winSize, BottomBand(winSize, fm)));
    if m.left != 0 {
      quads := quads + [MarginQuadAt(winPos, winSize, LeftBand(winSize, fm))];
    }
    if m.right != 0 {
      quads := quads + [MarginQuadAt(winPos, winSize, RightBand(winSize, fm))];
    }
  }

  /** The hit-test candidates of `GetMouseInfo`: every visible window but grid 1, with its id. */
  method Candidates(windows: map<int, Win>) returns (cands: seq<(int, Win)>)
    ensures forall c :: c in cands ==> c.0 in windows && c.1 == windows[c.0] && !c.1.hidden && c.0 != 1
    ensures forall k :: k in windows && !windows[k].hidden && k != 1 ==> (k, windows[k]) in cands
  {
    cands := [];
    var rest := windows.Keys;
    while rest != {}
      invariant rest <= windows.Keys
      invariant forall c :: c in cands ==> c.0 in windows && c.1 == windows[c.0] && !c.1.hidden && c.0 != 1
      invariant forall k :: k in windows && k !in rest && !windows[k].hidden && k != 1 ==>
        (k, windows[k]) in cands
      decreases rest
    {
      NonEmptyHasMember(rest);
      var id :| id in rest;
      if !windows[id].hidden && id != 1 {
        cands := cands + [(id, windows[id])];
      }
      rest := rest - {id};
    }
  }

  /** A non-empty set has a member to pick. */
  lemma NonEmptyHasMember(s: set<int>)
    requires s != {}
    ensures exists x :: x in s
  {
    if forall x :: x !in s {
      assert false;
    }
  }

  /** A window the mouse can land on at a cell: visible, not grid 1, focusable if floating, containing the cell. */
  predicate Landable(k: int, win: Win, row: int, col: int) {
    && k != 1
    && !win.hidden
    && (win.floatData.None? || win.floatData.value.focusable)
    && InCells(win, row, col)
  }

  /**
   * The hit-test of `GetMouseInfo`: the candidates sorted by descending
   * z-index, then the first one the mouse can land on, else grid 1. Ties
   * between equal z-indices are left open, as `std::ranges::sort` is not stable.
   */
  method HitTest(windows: map<int, Win>, row: int, col: int) returns (grid: int)
    ensures grid == 1 <==> forall k :: k in windows ==> !Landable(k, windows[k], row, col)
    ensures grid != 1 ==>
      && grid in windows && Landable(grid, windows[grid], row, col)
      && forall k :: k in windows && Landable(k, windows[k], row, col) ==> ZIndex(windows[k]) <= ZIndex(windows[grid])
  {
    var cands := Candidates(windows);
    ZOrderIsTotalPreorder();
    var sorted := Sorting.InsertionSort(cands, ZOrder());
    assert forall c :: c in sorted <==> c in cands by {
      forall c ensures c in sorted <==> c in cands {
        assert c in sorted <==> c in multiset(sorted);
        assert c in cands <==> c in multiset(cands);
      }
    }

    grid := 1;
    var i := 0;
    while i < |sorted|
      invariant 0 <= i <= |sorted|
      invariant grid == 1
      invariant forall j :: 0 <= j < i ==> !Landable(sorted[j].0, sorted[j].1, row, col)
    {
      var (id, win) := sorted[i];
      if win.hidden || id == 1 || (win.floatData.Some? && !win.floatData.value.focusable) {
        i := i + 1;
        continue;
      }
      var top := win.startRow;
      var bottom := win.startRow + win.height;
      var left := win.startCol;
      var right := win.startCol + win.width;
      if row >= top && row < bottom && col >= left && col < right {
        grid := id;
        break;
      }
      i := i + 1;
    }

    if grid != 1 {
      forall k | k in windows && Landable(k, windows[k], row, col)
        ensures ZIndex(windows[k]) <= ZIndex(windows[grid])
      {
        assert (k, windows[k]) in sorted;
        var j :| 0 <= j < |sorted| && sorted[j] == (k, windows[k]);
        if j > i {
          assert ZOrder()(sorted[i], sorted[j]);
        }
      }
    }
  }

  datatype FloatOutcome = Placed | NoGrid | NoAnchor

  class WinManager {
    const gridManager: GridManager
    /** The pixel size of one cell, the display scale and the grid area's offset in the window. */
    const charSize: Vec2
    const dpiScale: real
    const offset: Vec2
    /** The duration of a smooth scroll, which every window starts with. */
    const scrollTime: real

    var windows: map<int, Win>
    var msgWinId: int
    var activeWinId: int
    var dirty: bool
    /** How many render textures have been created: the number the next one gets. */
    var textures: nat

    ghost predicate Valid()
      reads this
    {
      && charSize.x > 0.0 && charSize.y > 0.0 && scrollTime > 0.0
      && (forall k :: k in windows ==> windows[k].id == k)
      && (forall k :: k in windows ==> windows[k].scrollTime == scrollTime)
      && (forall k :: k in windows ==> SizedBuffers(windows[k], charSize))
    }

    /** Whether a window gets a previous-frame texture: every window but grid 1 and the message window. */
    predicate KeepsPrev(id: int)
      reads this
    {
      id != 1 && id != msgWinId
    }

    constructor(gridManager: GridManager, charSize: Vec2, dpiScale: real, offset: Vec2, scrollTime: real)
      requires charSize.x > 0.0 && charSize.y > 0.0 && scrollTime > 0.0
      ensures Valid()
      ensures windows == map[] && !dirty && textures == 0
      ensures this.gridManager == gridManager && this.charSize == charSize
      ensures this.dpiScale == dpiScale && this.offset == offset && this.scrollTime == scrollTime
    {
      this.gridManager := gridManager;
      this.charSize := charSize;
      this.dpiScale := dpiScale;
      this.offset := offset;
      this.scrollTime := scrollTime;
      windows := map[];
      msgWinId := -1;
      activeWinId := -1;
      dirty := false;
      textures := 0;
    }

    method InitRenderData(win: Win) returns (w: Win)
      requires win.id in gridManager.grids
      modifies this`textures, gridManager`grids
      ensures w == Initialised(win, charSize, dpiScale, old(textures), KeepsPrev(win.id))
      ensures textures == old(textures) + (if KeepsPrev(win.id) then 2 else 1)
      ensures gridManager.grids == old(gridManager.grids)[win.id := old(gridManager.grids)[win.id].(dirty := true)]
    {
      var pos := CellPos(win, charSize);
      var size := CellSize(win, charSize);
      w := win.(renderTexture := Some(RenderTex(textures, size, pos)));
      textures := textures + 1;
      if win.id != 1 && win.id != msgWinId {
        w := w.(prevRenderTexture := Some(RenderTex(textures, size, pos)));
        textures := textures + 1;
      }
      w := w.(maskPos := Scale(pos, dpiScale));
      w := w.(rectCapacity := win.width * win.height, textCapacity := win.width * win.height);
      w := w.(marginsCapacity := 4);
      var g := gridManager.grids[win.id];
      gridManager.grids := gridManager.grids[win.id := g.(dirty := true)];
      w := w.(pos := pos, size := size);
    }

    method UpdateRenderData(win: Win) returns (w: Win)
      requires win.id in gridManager.grids
      modifies this`textures, gridManager`grids
      ensures w == Updated(win, charSize, dpiScale, old(textures), KeepsPrev(win.id))
      ensures textures == old(textures) + UpdateCreates(win, charSize, KeepsPrev(win.id))
      ensures CellSize(win, charSize) != win.size ==>
        gridManager.grids == old(gridManager.grids)[win.id := old(gridManager.grids)[win.id].(dirty := true)]
      ensures CellSize(win, charSize) == win.size ==> gridManager.grids == old(gridManager.grids)
    {
      var pos := CellPos(win, charSize);
      var size := CellSize(win, charSize);
      var posChanged := pos != win.pos;
      var sizeChanged := size != win.size;
      if !posChanged && !sizeChanged {
        return win;
      }
      w := RefreshTextures(win, pos, size, sizeChanged);
      if sizeChanged {
        var g := gridManager.grids[win.id];
        gridManager.grids := gridManager.grids[win.id := g.(dirty := true)];
      }
      if posChanged {
        w := w.(maskPos := Scale(pos, dpiScale));
      }
      if sizeChanged {
        w := w.(rectCapacity := win.width * win.height, textCapacity := win.width * win.height);
      }
      w := w.(pos := pos, size := size);
    }

    /**
     * The texture stage of `UpdateRenderData`: a new size creates new
     * textures at the new position, an unchanged size moves the old ones.
     */
    method RefreshTextures(win: Win, pos: Vec2, size: Vec2, sizeChanged: bool) returns (w: Win)
      modifies this`textures
      ensures sizeChanged ==> w == win.(renderTexture := Some(RenderTex(old(textures), size, pos)),
        prevRenderTexture := if KeepsPrev(win.id) then Some(RenderTex(old(textures) + 1, size, pos))
                             else win.prevRenderTexture)
      ensures !sizeChanged ==> w == win.(renderTexture := MoveTex(win.renderTexture, pos),
        prevRenderTexture := if KeepsPrev(win.id) then MoveTex(win.prevRenderTexture, pos)
                             else win.prevRenderTexture)
      ensures textures == old(textures) + (if sizeChanged then (if KeepsPrev(win.id) then 2 else 1) else 0)
    {
      w := win;
      if sizeChanged {
        w := w.(renderTexture := Some(RenderTex(textures, size, pos)));
        textures := textures + 1;
        if win.id != 1 && win.id != msgWinId {
          w := w.(prevRenderTexture := Some(RenderTex(textures, size, pos)));
          textures := textures + 1;
        }
      } else {
        w := w.(renderTexture := MoveTex(w.renderTexture, pos));
        if win.id != 1 && win.id != msgWinId {
          w := w.(prevRenderTexture := MoveTex(w.prevRenderTexture, pos));
        }
      }
    }

    /**
     * Creates the window for a new grid or refreshes an existing one, after
     * its geometry was set: render data is initialised for a new window and
     * updated for an existing one.
     */
    method Place(win: Win, first: bool) returns (w: Win)
      requires Valid() && win.id in gridManager.grids
      requires win.scrollTime == scrollTime
      requires first ==> win.pos == Zero && win.size == Zero && win.rectCapacity == win.textCapacity == 0
      requires SizedBuffers(win, charSize)
      modifies this`windows, this`textures, gridManager`grids
      ensures windows == old(windows)[win.id := w] && Valid()
      ensures w.id == win.id && w.startRow == win.startRow && w.startCol == win.startCol
      ensures w.width == win.width && w.height == win.height && w.hidden == win.hidden
      ensures w.floatData == win.floatData && w.margins == win.margins
      ensures w.pos == CellPos(win, charSize) && w.size == CellSize(win, charSize)
      ensures w.pos == CellPos(w, charSize) && w.size == CellSize(w, charSize)
      ensures w.rectCapacity == w.textCapacity == w.width * w.height
      ensures first ==> w == Initialised(win, charSize, dpiScale, old(textures), KeepsPrev(win.id))
      ensures !first ==> w == Updated(win, charSize, dpiScale, old(textures), KeepsPrev(win.id))
      ensures textures == old(textures) + PlaceCreates(win, first, charSize, KeepsPrev(win.id))
      ensures first || CellSize(win, charSize) != win.size ==>
        gridManager.grids == old(gridManager.grids)[win.id := old(gridManager.grids)[win.id].(dirty := true)]
      ensures !first && CellSize(win, charSize) == win.size ==> gridManager.grids == old(gridManager.grids)
    {
      if first {
        w := InitRenderData(win);
        InitialisedSized(win, charSize, dpiScale, old(textures), KeepsPrev(win.id));
      } else {
        w := UpdateRenderData(win);
        UpdatedMeaning(win, charSize, dpiScale, old(textures), KeepsPrev(win.id));
      }
      windows := windows[win.id := w];
    }

    /** `win_pos`: the grid becomes a visible window with the event's geometry. */
    method Pos(grid: int, startRow: int, startCol: int, width: nat, height: nat) returns (ok: bool)
      requires Valid()
      modifies this`windows, this`textures, gridManager`grids
      ensures Valid()
      ensures ok <==> grid in old(gridManager.grids)
      ensures !ok ==> (windows == old(windows) && textures == old(textures)
                       && gridManager.grids == old(gridManager.grids))
      ensures ok ==> windows.Keys == old(windows).Keys + {grid}
      ensures ok ==> forall k :: k in old(windows) && k != grid ==> windows[k] == old(windows)[k]
      ensures ok ==> var w := windows[grid];
        && w.startRow == startRow && w.startCol == startCol
        && w.width == width && w.height == height && !w.hidden
        && w.pos == CellPos(w, charSize) && w.size == CellSize(w, charSize)
        && w.rectCapacity == w.textCapacity == width * height
      ensures ok && grid in old(windows) ==>
        windows[grid].floatData == old(windows)[grid].floatData
        && windows[grid].margins == old(windows)[grid].margins
      ensures ok ==>
        var first := grid !in old(windows);
        var before := if first then NewWin(grid, scrollTime) else old(windows)[grid];
        var win := before.(startRow := startRow, startCol := startCol, width := width, height := height,
                           hidden := false);
        && windows[grid] == PlacedWin(win, first, charSize, dpiScale, old(textures), KeepsPrev(grid))
        && textures == old(textures) + PlaceCreates(win, first, charSize, KeepsPrev(grid))
      ensures ok && (grid !in old(windows) || old(windows)[grid].size != windows[grid].size) ==>
        gridManager.grids == old(gridManager.grids)[grid := old(gridManager.grids)[grid].(dirty := true)]
      ensures ok && grid in old(windows) && old(windows)[grid].size == windows[grid].size ==>
        gridManager.grids == old(gridManager.grids)
    {
      if grid !in gridManager.grids {
        return false;
      }
      var first := grid !in windows;
      var win := if first then NewWin(grid, scrollTime) else windows[grid];
      win := win.(startRow := startRow, startCol := startCol, width := width, height := height);
      win := win.(hidden := false);
      var w := Place(win, first);
      ok := true;
    }

    /**
     * `win_float_pos`: the grid becomes a visible window sized like its grid
     * and anchored to a corner of the anchor window's cell at
     * (`anchorRow`, `anchorCol`). Without the anchor window the entry stays
     * as inserted, with only its size and visibility set.
     */
    method FloatPos(grid: int, anchor: string, anchorGrid: int, anchorRow: int, anchorCol: int,
                    focusable: bool, zindex: int) returns (outcome: FloatOutcome)
      requires Valid()
      modifies this`windows, this`textures, gridManager`grids
      ensures Valid()
      ensures outcome == NoGrid <==> grid !in old(gridManager.grids)
      ensures outcome == NoGrid ==> (windows == old(windows) && textures == old(textures)
                                     && gridManager.grids == old(gridManager.grids))
      ensures outcome != NoGrid ==> windows.Keys == old(windows).Keys + {grid}
      ensures outcome != NoGrid ==> forall k :: k in old(windows) && k != grid ==> windows[k] == old(windows)[k]
      ensures outcome != NoGrid ==>
        && windows[grid].width == old(gridManager.grids)[grid].width
        && windows[grid].height == old(gridManager.grids)[grid].height
        && !windows[grid].hidden
      ensures outcome == NoAnchor <==> outcome != NoGrid && anchorGrid != grid && anchorGrid !in old(windows)
      ensures outcome == NoAnchor ==>
        && textures == old(textures) && gridManager.grids == old(gridManager.grids)
        && var before := if grid in old(windows) then old(windows)[grid] else NewWin(grid, scrollTime);
           windows[grid] == before.(width := windows[grid].width, height := windows[grid].height, hidden := false)
      ensures outcome == Placed ==>
        var w := windows[grid];
        var before := if grid in old(windows) then old(windows)[grid] else NewWin(grid, scrollTime);
        var a := if anchorGrid == grid then before else old(windows)[anchorGrid];
        && (w.startRow, w.startCol) == AnchorStart(anchor, a.startRow + anchorRow, a.startCol + anchorCol,
                                                   w.width, w.height, before.startRow, before.startCol)
        && w.floatData == Some(FloatData(focusable, zindex))
        && w.pos == CellPos(w, charSize) && w.size == CellSize(w, charSize)
        && w.rectCapacity == w.textCapacity == w.width * w.height
      ensures outcome == Placed ==>
        var w := windows[grid];
        var first := grid !in old(windows);
        var before := if first then NewWin(grid, scrollTime) else old(windows)[grid];
        var g := old(gridManager.grids)[grid];
        var placed := before.(width := g.width, height := g.height, hidden := false,
                              startRow := w.startRow, startCol := w.startCol,
                              floatData := Some(FloatData(focusable, zindex)));
        && w == PlacedWin(placed, first, charSize, dpiScale, old(textures), KeepsPrev(grid))
        && textures == old(textures) + PlaceCreates(placed, first, charSize, KeepsPrev(grid))
    {
      if grid !in gridManager.grids {
        return NoGrid;
      }
      var first := grid !in windows;
      var before := if first then NewWin(grid, scrollTime) else windows[grid];
      var g := gridManager.grids[grid];
      var win := before.(width := g.width, height := g.height, hidden := false);
      SizedBuffersKept(before, win, charSize);
      if anchorGrid != grid && anchorGrid !in windows {
        windows := windows[grid := win];
        return NoAnchor;
      }
      var anchorWin := if anchorGrid == grid then win else windows[anchorGrid];
      var start := AnchorStart(anchor, anchorWin.startRow + anchorRow, anchorWin.startCol + anchorCol,
                               win.width, win.height, win.startRow, win.startCol);
      var placed := win.(startRow := start.0, startCol := start.1, floatData := Some(FloatData(focusable, zindex)));
      SizedBuffersKept(win, placed, charSize);
      var w := Place(placed, first);
      outcome := Placed;
    }

    /** `win_hide`: the window is dropped; the result says whether it existed (the source logs otherwise). */
    method Hide(grid: int) returns (removed: bool)
      requires Valid()
      modifies this`windows
      ensures Valid()
      ensures removed <==> grid in old(windows)
      ensures windows == old(windows) - {grid}
    {
      removed := grid in windows;
      windows := windows - {grid};
    }

    /** `win_close`: the window is dropped; an unknown grid is ignored silently. */
    method Close(grid: int)
      requires Valid()
      modifies this`windows
      ensures Valid()
      ensures windows == old(windows) - {grid}
      ensures GetActiveWin().Some? <==> old(GetActiveWin()).Some? && grid != activeWinId
    {
      windows := windows - {grid};
    }

    /** `msg_set_pos`: the grid becomes the message window, at `row`, sized like its grid, from column 0. */
    method MsgSet(grid: int, row: int) returns (ok: bool)
      requires Valid()
      modifies this`windows, this`textures, this`msgWinId, gridManager`grids
      ensures Valid()
      ensures ok <==> grid in old(gridManager.grids)
      ensures !ok ==> (windows == old(windows) && textures == old(textures)
                       && gridManager.grids == old(gridManager.grids) && msgWinId == old(msgWinId))
      ensures ok ==> msgWinId == grid && !KeepsPrev(grid)
      ensures ok ==> windows.Keys == old(windows).Keys + {grid}
      ensures ok ==> forall k :: k in old(windows) && k != grid ==> windows[k] == old(windows)[k]
      ensures ok ==> var w := windows[grid];
        && w.startRow == row && w.startCol == 0
        && w.width == old(gridManager.grids)[grid].width && w.height == old(gridManager.grids)[grid].height
        && !w.hidden
        && w.pos == CellPos(w, charSize) && w.size == CellSize(w, charSize)
        && w.rectCapacity == w.textCapacity == w.width * w.height
      ensures ok ==>
        var first := grid !in old(windows);
        var before := if first then NewWin(grid, scrollTime) else old(windows)[grid];
        var g := old(gridManager.grids)[grid];
        var win := before.(startRow := row, startCol := 0, width := g.width, height := g.height, hidden := false);
        && windows[grid] == PlacedWin(win, first, charSize, dpiScale, old(textures), false)
        && textures == old(textures) + PlaceCreates(win, first, charSize, false)
      ensures ok && grid !in old(windows) ==> windows[grid].prevRenderTexture == None
      ensures ok && (grid !in old(windows) || old(windows)[grid].size != windows[grid].size) ==>
        gridManager.grids == old(gridManager.grids)[grid := old(gridManager.grids)[grid].(dirty := true)]
      ensures ok && grid in old(windows) && old(windows)[grid].size == windows[grid].size ==>
        gridManager.grids == old(gridManager.grids)
    {
      if grid !in gridManager.grids {
        return false;
      }
      var first := grid !in windows;
      var win := if first then NewWin(grid, scrollTime) else windows[grid];
      win := win.(startRow := row, startCol := 0);
      var g := gridManager.grids[grid];
      win := win.(width := g.width, height := g.height);
      win := win.(hidden := false);
      msgWinId := grid;
      var w := Place(win, first);
      ok := true;
    }

    /** `win_viewport`: a scroll of `delta` rows that fits between the margins starts a smooth scroll. */
    method Viewport(grid: int, delta: int)
      requires Valid()
      modifies this`windows
      ensures Valid()
      ensures grid !in old(windows) ==> windows == old(windows)
      ensures grid in old(windows) && !ShouldScroll(old(windows)[grid], delta) ==> windows == old(windows)
      ensures grid in old(windows) && ShouldScroll(old(windows)[grid], delta) ==>
        windows == old(windows)[grid := StartScroll(old(windows)[grid], delta, charSize)]
    {
      if grid !in windows {
        return;
      }
      var win := windows[grid];
      var shouldScroll := Abs(delta) > 0 && Abs(delta) <= win.height - (win.margins.top + win.margins.bottom);
      if shouldScroll {
        win := win.(scrolling := true, scrollDist := delta as real * charSize.y, scrollElapsed := 0.0);
        win := win.(prevRenderTexture := win.renderTexture, renderTexture := win.prevRenderTexture);
        SizedBuffersKept(windows[grid], win, charSize);
        assert win.scrolling && win.scrollElapsed == 0.0;
        assert win.renderTexture == old(windows)[grid].prevRenderTexture;
        assert win == StartScroll(old(windows)[grid], delta, charSize);
        windows := windows[grid := win];
      }
    }

    /**
     * Advances every scrolling window's clock by `dt`; the manager becomes
     * dirty when any window was scrolling.
     */
    method UpdateScrolling(dt: real, ease: real -> real)
      requires Valid()
      modifies this`windows, this`dirty
      ensures Valid()
      ensures windows.Keys == old(windows).Keys
      ensures forall k :: k in windows ==> windows[k] == ScrollStep(old(windows)[k], dt, ease, dpiScale)
      ensures dirty <==> old(dirty) || exists k :: k in old(windows) && old(windows)[k].scrolling
    {
      var ws, any := ScrollAll(windows, dt, ease, dpiScale);
      forall k | k in windows
        ensures ws[k].id == k && ws[k].scrollTime == scrollTime && SizedBuffers(ws[k], charSize)
      {
        ScrollStepKeeps(windows[k], dt, ease, dpiScale, charSize);
      }
      windows := ws;
      if any {
        dirty := true;
      }
    }

    /**
     * `win_viewport_margins`: records the margins and rewrites the margin
     * quads. The requires stands in for the margins' quad buffer holding
     * the quads written through `CurrQuad` and `Increment`.
     */
    method ViewportMargins(grid: int, m: Margins)
      requires Valid()
      requires grid in windows ==>
        |MarginQuads(windows[grid].pos, windows[grid].size, m, m.ToFloat(charSize))| <= windows[grid].marginsCapacity
      modifies this`windows
      ensures Valid()
      ensures grid !in old(windows) ==> windows == old(windows)
      ensures grid in old(windows) ==>
        var w := old(windows)[grid];
        windows == old(windows)[grid := w.(margins := m, fmargins := m.ToFloat(charSize),
                                            marginQuads := MarginQuads(w.pos, w.size, m, m.ToFloat(charSize)))]
    {
      if grid !in windows {
        return;
      }
      var win := windows[grid];
      win := win.(margins := m);
      win := win.(fmargins := m.ToFloat(charSize));
      var quads := WriteMarginQuads(win.pos, win.size, m, win.fmargins);
      win := win.(marginQuads := quads);
      SizedBuffersKept(windows[grid], win, charSize);
      windows := windows[grid := win];
    }

    /** The active window, if it exists. */
    function GetActiveWin(): (r: Option<Win>)
      reads this
      ensures r.Some? <==> activeWinId in windows
      ensures r.Some? ==> r.value == windows[activeWinId]
    {
      if activeWinId in windows then Some(windows[activeWinId]) else None
    }

    /** The grid cell under a mouse position, counted from the grid area's origin. */
    function GlobalCell(mouse: Vec2): (int, int)
      reads this
      requires Valid()
    {
      (Trunc((mouse.y - offset.y) / charSize.y), Trunc((mouse.x - offset.x) / charSize.x))
    }

    /** Grid `k` has a window the mouse can land on at the cell. */
    predicate Hit(k: int, row: int, col: int)
      reads this
    {
      k in windows && Landable(k, windows[k], row, col)
    }

    /**
     * The mouse position relative to a given window. `None` when the window
     * does not exist (`windows.at` throws).
     */
    function GetMouseInfoIn(grid: int, mouse: Vec2): (r: Option<MouseInfo>)
      reads this
      requires Valid()
      ensures r.Some? <==> grid in windows
      ensures r.Some? ==> r.value.grid == grid && r.value.row >= 0 && r.value.col >= 0
      ensures r.Some? && InCells(windows[grid], GlobalCell(mouse).0, GlobalCell(mouse).1) ==>
        windows[grid].startRow + r.value.row == GlobalCell(mouse).0
        && windows[grid].startCol + r.value.col == GlobalCell(mouse).1
    {
      if grid !in windows then None
      else
        var cell := GlobalCell(mouse);
        Some(RelativeCell(grid, windows[grid], cell.0, cell.1))
    }

    /**
     * The window under the mouse: among the windows the mouse can land on,
     * one with the highest z-index, else grid 1. `None` when it falls back to
     * grid 1 and grid 1 has no window (`windows.at` throws).
     */
    method GetMouseInfo(mouse: Vec2) returns (r: Option<MouseInfo>)
      requires Valid()
      ensures var (row, col) := GlobalCell(mouse);
        r.None? <==> (forall k :: !Hit(k, row, col)) && 1 !in windows
      ensures r.Some? ==> r == GetMouseInfoIn(r.value.grid, mouse)
      ensures var (row, col) := GlobalCell(mouse);
        r.Some? && r.value.grid != 1 ==>
          Hit(r.value.grid, row, col)
          && forall k :: Hit(k, row, col) ==> ZIndex(windows[k]) <= ZIndex(windows[r.value.grid])
      ensures var (row, col) := GlobalCell(mouse);
        r.Some? && r.value.grid == 1 ==> forall k :: !Hit(k, row, col)
    {
      var globalRow := Trunc((mouse.y - offset.y) / charSize.y);
      var globalCol := Trunc((mouse.x - offset.x) / charSize.x);

      var grid := HitTest(windows, globalRow, globalCol);
      assert GlobalCell(mouse) == (globalRow, globalCol);
      assert grid != 1 ==> Hit(grid, globalRow, globalCol);
      assert grid == 1 <==> forall k :: !Hit(k, globalRow, globalCol);

      if grid !in windows {
        return None;
      }
      var win := windows[grid];
      var row := Max(globalRow - win.startRow, 0);
      var col := Max(globalCol - win.startCol, 0);
      r := Some(MouseInfo(grid, row, col));
    }
  }
}
