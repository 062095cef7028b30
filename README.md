# neogui core, modelled in Dafny

neogui is a GPU front-end for Neovim. This project models the parts of it that
keep state and do arithmetic on the CPU, and proves what that code promises:

- **Window manager** (`window.dfy`, module `Windows`). A map from grid id to
  window value, updated by the multigrid UI events `win_pos`,
  `win_float_pos`, `msg_set_pos`, `win_hide`, `win_close`, `win_viewport`
  and `win_viewport_margins`. It also covers the per-frame scroll clock and
  mouse hit-testing by z-index. Render textures are numbered values. The
  manager counts how many it has created.
- **Cursor** (`cursor.dfy`, module `Cursors`). The jump clock, the shape
  morph clock, the Wait/On/Off blink cycle and the render gate.
- **Geometry** (`region.dfy`, module `Region`). Four-corner quads,
  rectangles and lines with strict intersection.
- **Quad buffer** (`quad.dfy`, module `Quad`). `QuadRenderData`, with its
  counters, its quad array and an index array filled in place.
- **Texture atlas** (`texture_atlas.dfy`, module `Atlas`). The shelf
  packer: it places glyph bitmaps left to right, wraps to a new shelf and
  grows the pixel buffer by whole bands.
- **Renderer** (`renderer.dfy`, module `Rendering`).
  - `RenderToWindow` turns grid cells into background and text quads.
  - It records the quad count at every row boundary.
  - It plans one rect pass and one text pass per render target.
  - `RenderCursor` picks the cursor colors.
- **Font family** (`font.dfy`, module `Fonts`). Parsing of the `guifont`
  option, font sets with bold/italic variants, glyph lookup with variant
  fallback, and rescaling to a new display scale.
- **Session manager** (`session_manager.dfy`, module `Session`). Id
  allocation, the most-recently-used order, `Switch`, `Prev`, `List` and
  `ShouldQuit`.
- **Timer** (`timer.dfy`, module `Timer`). A sliding window of frame
  durations and their average.

Shared helpers:

- `wrappers.dfy`: `Option` and `Result`.
- `decimal.dfy`: decimal text of numbers (`std::to_string`).
- `sorting.dfy`: an insertion sort proved sorted and a permutation. It stands
  in for `std::ranges::sort`.

Conventions:

- Floats are exact reals, and the model states where that matters.
- The display scale, the cell size and the grid offset are constants of the
  window manager.
- Easing curves (`pow`) are parameters of type `real -> real`.
- Font lookup by name, number conversion and glyph rasterisation are function
  parameters.
- Clocks are replaced by the durations they would measure.

## Model

| member | source | states |
|---|---|---|
| Region.MakeRegion | src/utils/region.hpp:8-15 | corner 0 is pos, corner 2 is pos + size, corners 1 and 3 are the other two corners of that box |
| Region.MakeRegionRoundTrip | src/utils/region.hpp:8-15 | position and size can be read back from the four corners |
| Region.Rect.Region | src/utils/region.hpp:21-39 | the rectangle's quad is (Left, Top), (Right, Top), (Right, Bottom), (Left, Bottom), from the edge accessors |
| Region.RectIntersectSymmetric | src/utils/region.hpp:42-45 | RectIntersect(a, b) == RectIntersect(b, a) |
| Region.RectIntersectByAxes | src/utils/region.hpp:42-62 | rectangles intersect iff their x projections and their y projections intersect as Lines |
| Region.SharedEdgeDoesNotIntersect | src/utils/region.hpp:42-45 | rectangles that only touch along an edge do not intersect, in either order |
| Region.LineIntersectsSymmetric | src/utils/region.hpp:60-62 | Line.Intersects is symmetric |
| Region.LineSelfIntersection | src/utils/region.hpp:52-62 | a line intersects itself iff its length is positive |
| Region.LineIntersectsIffCommonPoint | src/utils/region.hpp:52-62 | for positive lengths, the strict test holds iff the open spans share a point |
| Region.RectIntersectIffCommonPoint | src/utils/region.hpp:42-45 | for positive sizes, the strict test holds iff some point is strictly inside both rectangles |
| Quad.WriteQuadIndices | src/gfx/quad.hpp:43-48 | writes v, v+1, v+2, v+2, v+3, v at slots i..i+5 and leaves every other slot unchanged |
| Quad.QuadRenderData.constructor | src/gfx/quad.hpp:17-20 | counts are zero, there are numQuads quad slots and 6 * numQuads index slots, and the invariant holds |
| Quad.QuadRenderData.CreateBuffers | src/gfx/quad.hpp:22-30 | resizes to n quads and 6n indices, keeps the common prefix, zeroes new index slots and leaves the counters alone |
| Quad.QuadRenderData.ResetCounts | src/gfx/quad.hpp:32-36 | quadCount, vertexCount and indexCount become 0 |
| Quad.QuadRenderData.NextQuad | src/gfx/quad.hpp:38-55 | needs a free slot; returns slot old quadCount; counts grow by 1, 4 and 6, so vertexCount = 4 quadCount and indexCount = 6 quadCount hold; writes the quad's six indices and nothing else |
| Quad.QuadRenderData.Render | src/gfx/quad.hpp:67-82 | needs offset and size at most quadCount; draws from index 6 * offset, and a size of 0 stands for quadCount |
| Quad.DrawnIndicesInRange | src/gfx/quad.hpp:38-82 | a draw of quads [offset, offset + size) over indices written by NextQuad refers only to those quads' vertices |
| Quad.SizeZeroWithOffsetOverruns | src/gfx/quad.hpp:72 | a size of 0 with a non-zero offset reads past the written indices |
| Timer.Timer.constructor | src/util/timer.hpp:12 | an empty window whose bufferSize defaults to 20 |
| Timer.Timer.End | src/util/timer.hpp:19-23 | appends the duration; the window then holds the bufferSize most recent durations in arrival order, and never more than bufferSize |
| Timer.RecentAppend | src/util/timer.hpp:21-22 | recording one more duration drops the oldest exactly when the window is full |
| Timer.Timer.GetAverageDuration | src/util/timer.hpp:25-27 | needs a non-empty window; the result is the truncated mean (avg * n <= sum < (avg + 1) * n) and lies between the smallest and largest duration |
| Timer.SumBounds | src/util/timer.hpp:26 | the sum of n durations lies between n times the smallest and n times the largest |
| Timer.AverageBetween | src/util/timer.hpp:26 | truncated division keeps a total in [n lo, n hi] within [lo, hi] |
| Cursors.Cursor.SetDestPos | src/editor/cursor.cpp:7-20 | returns false and changes nothing when the destination is unchanged; otherwise starts a jump from the current position with a zero clock, and resets the blink phase to Wait when blinking |
| Cursors.Cursor.SetMode | src/editor/cursor.cpp:22-49 | the target quad is ShapeCorners of the mode; the morph starts from the current corners with a zero clock; the blink is reset using the old blink flag and then recomputed as "all three blink times non-zero" |
| Cursors.ShapeInsideCell | src/editor/cursor.cpp:25-40 | for a percentage in [0, 100] the target quad lies in the cell; a horizontal bar sits on the bottom edge at full width, a vertical bar on the left edge at full height, and a block or no shape fills the cell |
| Cursors.Cursor.Update | src/editor/cursor.cpp:51-105 | one GlideStep of the position clock, one MorphStep of the corner clock and the blink step, each as in the rows below; the clocks stay below their times |
| Cursors.Cursor.UpdatePosition | src/editor/cursor.cpp:52-64 | one GlideStep: when not at the destination the clock advances by dt; reaching jumpTime lands exactly on the destination with a zero clock; otherwise the position is the eased mix; at the destination nothing changes |
| Cursors.Cursor.UpdateCorners | src/editor/cursor.cpp:66-79 | the same clock for the four corners: once cornerTime is reached the corners equal the target and the clock is zero |
| Cursors.GlideLands | src/editor/cursor.cpp:52-64 | over any run of frames the position clock stays below jumpTime, and once the frames' times add up to jumpTime the cursor sits exactly on its destination |
| Cursors.GlideOnSegment | src/editor/cursor.cpp:52-64 | with an easing curve into [0, 1] and non-negative frames, every position the glide passes through lies on the segment from its start to its destination |
| Cursors.GlideStartsOnSegment | src/editor/cursor.cpp:7-19 | the glide `SetDestPos` starts, from the current position, begins on its segment |
| Cursors.MorphLands | src/editor/cursor.cpp:66-79 | over any run of frames the corner clock stays below cornerTime, and once the frames' times add up to cornerTime the quad has exactly the mode's shape |
| Cursors.MorphOnSegments | src/editor/cursor.cpp:66-79 | with an easing curve into [0, 1] and non-negative frames, every corner stays on the segment from its start to its target |
| Cursors.Cursor.UpdateBlink | src/editor/cursor.cpp:81-104 | when blinking, one NextBlink step on the elapsed time plus dt * 1000 milliseconds; when not blinking nothing changes |
| Cursors.NextBlinkCycle | src/editor/cursor.cpp:84-103 | a blink step never enters Wait; any change of phase zeroes the clock; On and Off alternate |
| Cursors.ShouldRenderWithoutBlink | src/editor/cursor.cpp:107-110 | with blinking off, the cursor renders iff a mode is set, its shape is not None and the mask exists |
| Atlas.TextureAtlas.constructor | src/gfx/texture_atlas.cpp:8-17 | width = trueGlyphSize * glyphsPerRow and height = trueGlyphSize * 3, both truncated; width * height blank pixels; cursor at the origin; flags clear |
| Atlas.TextureAtlas.Resize | src/gfx/texture_atlas.cpp:68-79 | height grows by one band and resized is set; the old pixels stay at their (row, col), because the width is fixed |
| Atlas.PrefixKeepsPixels | src/gfx/texture_atlas.cpp:73 | growing a row-major buffer at its end keeps every (row, col) pixel |
| Atlas.TextureAtlas.Blit | src/gfx/texture_atlas.cpp:46-54 | every pixel of the glyph rectangle becomes white with the glyph's alpha, and every other pixel is kept |
| Atlas.TextureAtlas.AddGlyph | src/gfx/texture_atlas.cpp:33-66 | wraps to a new shelf when the glyph does not fit the row, grows by a band when it does not fit the height, writes the glyph, sets dirty, returns MakeRegion of position and extent divided by dpiScale, advances x by the glyph width and keeps the tallest height of the shelf; the new glyph overlaps no earlier glyph |
| Atlas.TextureAtlas.MakeRoom | src/gfx/texture_atlas.cpp:35-43 | the cursor moves to the start of a new shelf below the tallest glyph exactly when the glyph does not fit the row; the buffer grows by one band exactly when the glyph does not fit below the cursor; afterwards the glyph fits and every pixel is unchanged |
| Atlas.WrapKeepsShelf | src/gfx/texture_atlas.cpp:36-40 | starting a new shelf below the tallest glyph of the current one keeps every placed glyph above the cursor |
| Atlas.PlaceKeepsShelf | src/gfx/texture_atlas.cpp:44-65 | a glyph placed at the cursor overlaps no earlier glyph, and after the cursor advances every glyph, the new one included, lies behind it |
| Atlas.TextureAtlas.Update | src/gfx/texture_atlas.cpp:81-104 | nothing happens unless dirty; otherwise the pixels are uploaded and dirty and resized become false |
| Atlas.FlatInjective | src/gfx/texture_atlas.cpp:15-17 | the row-major index (row * width + col) of a pixel with col < width determines its row and column |
| Rendering.EmitCell | src/gfx/renderer.cpp:162-196 | a cell appends a background quad iff EmitsRect (hlId not 0, a background that differs from highlight 0's) and a text quad iff EmitsText (text neither empty nor " ") |
| Rendering.EmitRow | src/gfx/renderer.cpp:157-199 | the cells of one line, left to right, with the pen moved one cell width per cell; appends exactly RowRects and RowTexts of the line |
| Rendering.EmitGrid | src/gfx/renderer.cpp:141-203 | after resetting the counts, the rect and text buffers hold exactly GridRects and GridTexts of all lines; the recorded marks are Marks of the lines |
| Rendering.EmitGridRow | src/gfx/renderer.cpp:155-160 | records the quad counts as the row's marks, then appends the row's quads after those of the rows before it |
| Rendering.RenderToWindow | src/gfx/renderer.cpp:126-256 | a grid whose size differs from the window's changes nothing; otherwise the quads are those of every row; there are rows + 1 marks and mark r counts the quads of the first r rows; every render target gets a PassFor plan |
| Rendering.PlanPasses | src/gfx/renderer.cpp:213-256 | per render target: load the target iff a clear region is given; the clear quad is that region's quad; the rect and text draws cover the quads between the marks of the range's start and end rows, and there is no draw when the marks are equal |
| Rendering.PlanPass | src/gfx/renderer.cpp:214-255 | the passes of one render target: load it iff a clear region is given, clear that region's quad, and draw the rect and text quads between the marks of the range's start and end rows, with no draw when the marks are equal |
| Rendering.RangeDraw | src/gfx/renderer.cpp:234-248 | no draw iff the two marks are equal; otherwise the draw starts at index 6 * start and covers 6 * (end - start) indices |
| Rendering.GridQuadsBounded | src/gfx/renderer.cpp:162-197 | each cell emits at most one quad of each kind, so rows * width bounds both counts; this is the capacity InitRenderData allocates, so NextQuad never runs out |
| Rendering.GridPrefix | src/gfx/renderer.cpp:150-203 | the quads of the first a rows are a prefix of those of the first b rows, so the marks never decrease |
| Rendering.MarksDelimitRows | src/gfx/renderer.cpp:228-249 | the quads between the marks of rows lo and hi are exactly the quads of rows lo to hi - 1 |
| Rendering.MarksDelimitRects | src/gfx/renderer.cpp:228-249 | the background quads between the marks of rows lo and hi are those of rows lo to hi - 1 |
| Rendering.MarksDelimitTexts | src/gfx/renderer.cpp:228-249 | the text quads between the marks of rows lo and hi are those of rows lo to hi - 1 |
| Rendering.MarksRecorded | src/gfx/renderer.cpp:150-203 | recording quadCount before each row and after the last gives, at index r, the quad count of the first r rows |
| Rendering.NoRectsIffDefaultBackgrounds | src/gfx/renderer.cpp:163-164 | a line yields no background quad iff none of its cells asks for one |
| Rendering.NoTextsIffBlank | src/gfx/renderer.cpp:178 | a line yields no text quad iff every cell is empty or a space |
| Rendering.AdvancedIsProduct | src/gfx/renderer.cpp:196-199 | the pen, advanced one cell size at a time, is at n cell sizes |
| Rendering.CursorColors | src/gfx/renderer.cpp:343-348 | foreground and background are swapped exactly when attrId is 0 |
| Rendering.RenderCursor | src/gfx/renderer.cpp:343-368 | one quad: the shape's corners moved to the cursor position, in CursorColors, drawn as 6 indices from 0 |
| Fonts.JoinPieces | src/editor/font.cpp:8-11 | splitting on a delimiter loses nothing: joining the pieces gives the string back |
| Fonts.PiecesOfJoin | src/editor/font.cpp:8-11 | joining delimiter-free pieces and splitting again gives the pieces back |
| Fonts.ParseGuifont | src/editor/font.cpp:19-45 | the token loop computes ParsedGuifont |
| Fonts.ParsedGuifontMeaning | src/editor/font.cpp:19-45 | the font list is the first non-empty ':' token; the options after it fail at the first h/w with a bad number, naming it; otherwise the last h and w override 12 and 0, and only "b" and "i" set bold and italic |
| Fonts.FoldOptions | src/editor/font.cpp:32-44 | once the font list is set, the loop fails exactly at the first bad number, and otherwise yields the last h/w values and the b/i flags |
| Fonts.FoldOptionsFails | src/editor/font.cpp:32-44 | with a bad h/w number among the options, the loop fails with the message for the first one |
| Fonts.FoldOptionsSucceeds | src/editor/font.cpp:32-44 | with no bad number, the loop yields the last h and w values and turns bold and italic on exactly for the tokens b and i |
| Fonts.FoldFontList | src/editor/font.cpp:27-30 | empty tokens are skipped, and the first other token becomes the font list |
| Fonts.FontSets | src/editor/font.cpp:49-81 | one font set per name, in order, when every name loads; otherwise the error of the first name that fails, every earlier name having loaded |
| Fonts.Share | src/editor/font.cpp:63-68 | a variant shares the normal handle iff it comes from the normal font's file |
| Fonts.SelectMatchesRequest | src/editor/font.cpp:121-132 | with no style requested, a styled lookup uses the font found for exactly that style; with bold or italic requested every lookup uses the normal font |
| Fonts.FirstHit | src/editor/font.cpp:120-137 | the first font set whose chosen variant has the glyph, none of the earlier ones having it |
| Fonts.FontFamily.DefaultFont | src/editor/font.cpp:114-116 | the first set's normal font, which an unstyled lookup in that set resolves to; requires a non-empty family, where the source reads `fonts.front()` of an empty vector (third finding) |
| Fonts.FontFamily.GetGlyphInfo | src/editor/font.cpp:118-147 | the glyph from the first set that has it, else the first set's space glyph; None when that is missing too, where the source dereferences null |
| Fonts.RescaleVariantMeaning | src/editor/font.cpp:94-107 | rescaling reloads each font from its file at its size and the new scale; a variant shares the new normal font iff it lives in that font's file |
| Fonts.FontFamily.ChangeDpiScale | src/editor/font.cpp:90-112 | same number and order of sets, each rescaled; the atlas is remade for the default font's height at the new scale |
| Fonts.RescaleSetAsWritten | src/editor/font.cpp:104-107 | as written, a set with a missing variant cannot be rescaled; with all variants present the result is RescaleSet |
| Fonts.RescaleAsWrittenFailsOnStyledGuifont | src/editor/font.cpp:104-107 | a guifont asking for bold gives sets that the written rescale fails on |
| Fonts.FromGuifontAsWrittenWithoutName | src/editor/font.cpp:26-84 | as written, the guifont ":" gives a family with no font sets |
| Fonts.FamilyFonts | src/editor/font.cpp:13-88 | a successful family has at least one font set |
| Fonts.FamilyFontsMeaning | src/editor/font.cpp:13-88 | a family is the parsed font list split on ',' with one set per name, and its default font is the first name's font in the requested style |
| Fonts.FromGuifont | src/editor/font.cpp:13-88 | builds the family that FamilyFonts (the corrected behaviour) describes, with an atlas for the parsed height, or returns its error |
| Decimal.ParseNatToString | src/session/manager.cpp:27 | printing a number in decimal and parsing it back gives the number |
| Decimal.IntToStringInjective | src/session/manager.cpp:27 | different ids get different decimal names |
| Sorting.InsertionSort | src/session/manager.cpp:161-169 | the result is a permutation of the input, ordered by the comparator |
| Sorting.LexTrichotomy | src/session/manager.cpp:168 | string < is a strict total order: exactly one of a < b, a == b, b < a |
| Sorting.KeyOrderIsTotalPreorder | src/session/manager.cpp:162-169 | ordering by a string key, ascending or reversed, is a total preorder |
| Session.MoveToFrontKeepsOthersOrder | src/session/manager.cpp:136-141 | moving a session to the front keeps the relative order of the others |
| Session.MoveToFrontPermutes | src/session/manager.cpp:136-141 | moving to the front is a permutation without duplicates, with the session first |
| Session.MoveToFrontAt | src/session/manager.cpp:136-141 | the session lands at index 0, the entries before its old index shift down by one, and those after it stay in place |
| Session.MoveToFrontKeepsDistinct | src/session/manager.cpp:136-141 | moving to the front keeps the order free of duplicates |
| Session.MoveSecondToFront | src/session/manager.cpp:146-152 | Prev's move swaps the first two entries |
| Session.SessionManager.New | src/session/manager.cpp:22-110 | takes id currId and increments it; a taken id is an error; the name defaults to the decimal id; on success the session goes to the front, and then one step back when not switching to it |
| Session.Register | src/session/manager.cpp:26-30 | registering a session under the next id keeps ids matching keys and below the next id, and keeps the order duplicate-free, with or without the new id at its front |
| Session.SessionManager.Kill | src/session/manager.cpp:112-123 | id 0 means the current session; an unknown id returns false; otherwise that session is disconnected |
| Session.SessionManager.Switch | src/session/manager.cpp:125-144 | an unknown id returns false and changes nothing; otherwise the session is marked reattached and moved to the front |
| Session.SessionManager.Prev | src/session/manager.cpp:146-152 | false with fewer than two sessions; otherwise the second session becomes first and the first becomes second |
| Session.SessionManager.List | src/session/manager.cpp:154-179 | a permutation of the sessions, sorted by id or name (descending when reversed) or in most-recently-used order (reversed when asked); any other key is an error naming it |
| Session.ReversedPermutes | src/session/manager.cpp:172 | reversing is a permutation |
| Session.SessionManager.ShouldQuit | src/session/manager.cpp:181-201 | a connected current session changes nothing; a disconnected one is removed and the next one becomes current and reattached; true iff none is left |
| Windows.Margins.ToFloat | src/editor/window.cpp:14-25 | for a positive cell size the pixel margins are all zero iff the margins are Empty |
| Windows.WinManager.InitRenderData | src/editor/window.cpp:27-73 | the window becomes Initialised: one new render texture, plus a previous-frame texture unless the window is grid 1 or the message window; the grid is marked dirty |
| Windows.InitialisedSized | src/editor/window.cpp:27-73 | after InitRenderData, pos and size are the cell geometry times charSize, the quad buffers hold width * height quads, and there are 4 margin quads |
| Windows.WinManager.UpdateRenderData | src/editor/window.cpp:75-139 | the window becomes Updated; the grid is marked dirty exactly when the size changed; textures are created only for a new size |
| Windows.WinManager.RefreshTextures | src/editor/window.cpp:85-105 | a new size creates a render texture (and a previous-frame texture for every window but grid 1 and the message window) at the new position with the next serial numbers; an unchanged size moves the existing textures |
| Windows.UpdatedMeaning | src/editor/window.cpp:75-139 | nothing changes when pos and size are current; afterwards they are current; buffers are recreated only for a new size and always hold width * height quads; no other field changes |
| Windows.SizedBuffersFit | src/editor/window.cpp:131-135 | buffers sized for the pixel size hold exactly width * height quads whenever the size is current |
| Windows.CellSizeInjective | src/editor/window.cpp:77-80 | for a positive cell size, the pixel size changes iff the cell width or height changes |
| Windows.WinManager.Place | src/editor/window.cpp:155-159 | a first insertion runs InitRenderData, any other runs UpdateRenderData, and the result is stored under its id; the texture count grows by the textures that step creates |
| Windows.WinManager.Pos | src/editor/window.cpp:141-160 | an unknown grid changes nothing (the grid table lookup throws); otherwise an upsert with the event's geometry, visible, pos and size from its cells; the whole new window is the initialised (new) or updated (existing) window, and the texture count grows by the textures created; other windows are kept; the grid is dirty on first insertion or a size change |
| Windows.AnchorStart | src/editor/window.cpp:180-198 | NW, NE, SW and SE put that corner of the window at (north, west); any other anchor keeps the start cell |
| Windows.WinManager.FloatPos | src/editor/window.cpp:162-210 | the window is upserted with its grid's size, visible; a missing anchor window stops there with the render data untouched; otherwise it is placed by AnchorStart from the anchor window's cell, with floatData (focusable, zindex), and the whole new window is the initialised (new) or updated (existing) window, with the texture count grown by the textures created |
| Windows.WinManager.Hide | src/editor/window.cpp:215-229 | erases exactly that grid's entry; the result says whether it existed |
| Windows.WinManager.Close | src/editor/window.cpp:231-238 | erases exactly that grid's entry; an unknown grid is ignored; the active window is lost iff it was the one closed |
| Windows.WinManager.MsgSet | src/editor/window.cpp:240-261 | upserts the message window at (row, 0) with its grid's size, visible, and sets msgWinId; the whole new window is the initialised (new) or updated (existing) window without a previous-frame texture, and the texture count grows by the textures created; the grid is dirty on first insertion or a size change |
| Windows.WinManager.Viewport | src/editor/window.cpp:263-286 | an unknown grid changes nothing; a scroll starts iff 0 < abs(delta) <= height - (top + bottom margins); then scrolling is set, scrollDist = delta * charSize.y, the clock is zero and the two textures swap; otherwise nothing changes |
| Windows.ScrollOffsetBetween | src/editor/window.cpp:312-315 | sign(dist) * mix(0, abs(dist), x) lies between 0 and dist for x in [0, 1] |
| Windows.WinManager.UpdateScrolling | src/editor/window.cpp:288-307 | every window takes one ScrollStep; dirty is set when some window was scrolling and otherwise keeps its value |
| Windows.ScrollAll | src/editor/window.cpp:289-294 | the loop over all windows: each becomes ScrollStep of itself, and `any` says whether one was scrolling |
| Windows.ScrollFrame | src/editor/window.cpp:292-344 | one scrolling window's frame equals ScrollStep |
| Windows.ScrollEnds | src/editor/window.cpp:279-306 | a frame reaching scrollTime ends a started scroll: scrolling off, clock zero, hasPrevRender set, and the pre-swap texture kept as the previous render |
| Windows.ScrollContinues | src/editor/window.cpp:292-344 | a frame shorter than the remaining time keeps scrolling, adds dt to the clock and keeps both textures |
| Windows.ScrollRunsItsTime | src/editor/window.cpp:288-307 | over any run of frames, a scroll ends (clock zero, previous frame marked rendered) once the frames' times reach the scroll time, and keeps scrolling with their times added to its clock while non-negative frames stay below it |
| Windows.ScrollStepKeeps | src/editor/window.cpp:288-346 | a scroll frame keeps the window's id, scroll time and buffer sizes |
| Windows.MarginQuads | src/editor/window.cpp:377-394 | the corrected margin quads: one per non-zero margin, at most 4, and none iff the margins are Empty |
| Windows.MarginQuadsAsWritten | src/editor/window.cpp:365-394 | the margin quads as the source builds them, one per corrected quad |
| Windows.MarginQuadsAsWrittenMeaning | src/editor/window.cpp:365-394 | with margins that fit, every quad as written lies inside the window, and its texture coordinates start at the quad's pixel offset in the window, with its extent as a fraction of the window's |
| Windows.MarginQuadsInsideWindow | src/editor/window.cpp:365-394 | the intended half of the margin finding: with margins that fit, every corrected margin quad lies inside the window and its texture coordinates lie in the unit square |
| Windows.MarginUvAsWrittenLeavesTexture | src/editor/window.cpp:365-373 | as written, the bottom margin of a 100 x 100 window samples texture coordinate (0, 80); corrected it samples (0, 0.8) |
| Windows.WriteMarginQuads | src/editor/window.cpp:363-394 | the quads written are the corrected MarginQuads |
| Windows.WinManager.ViewportMargins | src/editor/window.cpp:348-396 | an unknown grid changes nothing; otherwise the margins, their pixel values and the margin quads (the corrected MarginQuads) are replaced, and nothing else changes |
| Windows.WinManager.GetActiveWin | src/editor/window.cpp:401-405 | the window under activeWinId, or none when it does not exist |
| Windows.Trunc | src/editor/window.cpp:409-410 | float-to-int conversion truncates toward zero |
| Windows.RelativeCell | src/editor/window.cpp:441-455 | row and column are clamped at 0, and inside the window they are the exact offset from its start cell |
| Windows.ZOrderIsTotalPreorder | src/editor/window.cpp:418-421 | the descending-zindex comparator is a total preorder |
| Windows.Candidates | src/editor/window.cpp:412-416 | exactly the visible windows other than grid 1 |
| Windows.HitTest | src/editor/window.cpp:418-438 | grid 1 iff no window can take the mouse; otherwise a window that can, with the highest z-index (non-floating counts as 0) |
| Windows.WinManager.GetMouseInfoIn | src/editor/window.cpp:447-458 | none iff the grid has no window (windows.at throws); otherwise that grid with the clamped relative cell |
| Windows.WinManager.GetMouseInfo | src/editor/window.cpp:407-445 | the hit-test's window with the clamped relative cell; none iff nothing is hit and grid 1 has no window |

## Left out

- GPU work: textures, buffers, bind groups, `WriteBuffers` and render-pass encoding. Render textures are numbered values, and passes are returned as plans.
- Easing curves (`pow`) and IEEE float rounding. Reals are exact, and easing is a parameter.
- The scroll sub-region `UpdatePos` geometry of `UpdateScrolling` (src/editor/window.cpp:309-343). It feeds only GPU quads. The model keeps the scroll offset and the mask position.
- `ScrollableRenderTexture::GetRenderInfos` is not part of this model. The render targets and their row ranges are an input to `RenderToWindow`.
- Rendering.RenderToWindow: the `hlTable.at` lookups are a precondition (every highlight a cell uses is in the table) rather than a modelled exception.
- Rendering.RenderCursor: the `hlTable.at(attrId)` lookup (src/gfx/renderer.cpp:345) is a precondition (`attrId` is in the table) rather than a modelled exception.
- Fonts.FontFamily.GetGlyphInfo: when no font set has the glyph and the first set's normal font has no space glyph either, the result is `None`. The source logs an error and then dereferences a null `GlyphInfo*` (src/editor/font.cpp:139-146), so `None` stands for that crash.
- Rendering.RenderToWindow: requires quad buffers that hold width * height quads. `Windows.InitialisedSized` shows that `InitRenderData` allocates exactly that, but the window manager and the renderer are not joined into one call.
- `GetForeground`, `GetBackground` and the glyph lookup are function parameters of the renderer. UTF-8 decoding is folded into the glyph lookup.
- `textureAtlas.Update()` inside `RenderToWindow` is modelled separately, as `Atlas.TextureAtlas.Update`.
- Font loading (`Font::FromName`), `try_lexical_convert` and rasterisation are parameters.
- Session set-up: the editor connection, options, window and renderer creation in `New` are summarised by a `Setup` outcome. `UpdateSessionSizes` and the input handler are left out.
- `Timer::Start` and `steady_clock`: `End` receives the measured duration.
- Cursors.Cursor.UpdatePosition: `glm::pow(t, 1/2.8)` is the `ease` parameter. The segment lemmas (`GlideOnSegment`, `MorphOnSegments`) assume only that it maps [0, 1) into [0, 1], which `pow(t, 1/2.8)` does.
- Windows.WinManager.GetMouseInfo: ties between equal z-indices are left open, because `std::ranges::sort` is not stable.
- Windows.WinManager.FloatPos: with a missing anchor, the window keeps its new width and height but stale render data. For a new window this means empty quad buffers. The model states this behaviour and does not repair it.
- Windows.WinManager.ViewportMargins: requires that the margin quads fit the window's margin buffer (4 quads after `InitRenderData`).
- Windows.WinManager.ViewportMargins: stores the corrected quads (`MarginQuads`, from `MarginQuadAt`), not the source's. The source keeps each quad's texture origin in pixels (first finding). `MarginQuadsAsWritten` and `MarginQuadsAsWrittenMeaning` state what the source writes: the same vertices, with texture coordinates that start at the quad's pixel offset. The same holds for `Windows.WriteMarginQuads` and `Windows.MarginQuads`.
- Fonts.FromGuifont: returns the error "No font in guifont" for a guifont made only of ':', such as "::". This is the corrected behaviour (third finding). The source returns a family with no font sets, as `FromGuifontAsWritten` states, and `DefaultFont()` then reads the front of an empty vector (src/session/manager.cpp:82).
- Fonts.FontFamily.ChangeDpiScale: keeps absent variants absent. This is the corrected behaviour (second finding). The source dereferences the null variants, as `RescaleSetAsWritten` states.
- Windows.DivBy: a zero window size gives 0 instead of an IEEE infinity or NaN.
- Atlas.TextureAtlas.AddGlyph: requires a glyph no wider than the atlas and no taller than one band. The source grows the buffer only once, so a larger glyph would be written out of bounds.
- Session.SessionManager.Kill: `Kill(0)` requires a current session, because the source dereferences a null `CurrSession()` otherwise.
- Session.SessionManager.ShouldQuit: requires a non-empty order, for the same reason.
- The initial field values of `Cursor`, `WinManager` (msgWinId and activeWinId -1) and `SessionManager` come from headers that are not part of this model. The constructors choose them.
- `LOG_*` calls are no-ops. `Hide`'s result stands for its log line.
- `src/main.cpp`, `src/nvim/client.cpp`, the logger and `src/gfx/font.cpp` are not part of this model. They handle threads, I/O and FreeType.

## Findings

| source | as written | input that shows it | evidently intended | confidence | as-written member | corrected member |
|---|---|---|---|---|---|---|
| src/editor/window.cpp:365-373 | margin UVs are `MakeRegion(pos, size / win.size)`: the position stays in pixels while the size is normalised | a 100 x 100 window with a 20-pixel bottom margin: the quad starts at texture coordinate (0, 80) | divide the position by the window size too, as `RenderTexture::UpdatePos` does for its region | not executed | Windows.MarginQuadAtAsWritten | Windows.MarginQuadAt |
| src/editor/font.cpp:104-107 | `ChangeDpiScale` dereferences `fontSet.bold`, `italic` and `boldItalic` even when they are null | a guifont with `:b` or `:i` leaves the variants empty; any rescale then dereferences null | keep absent variants absent | not executed | Fonts.RescaleSetAsWritten | Fonts.RescaleSet |
| src/editor/font.cpp:26-30, 47-84 | a guifont with no font name yields a family with no font sets | a guifont made only of ':', such as ":" or "::": `DefaultFont()` then reads `fonts.front()` of an empty vector | reject a guifont without a font name | not executed | Fonts.FromGuifontAsWritten | Fonts.FamilyFonts |
