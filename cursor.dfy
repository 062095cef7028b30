/**
 * The editor cursor of src/editor/cursor.cpp: it glides to a new cell over
 * `jumpTime`, morphs its quad to the shape of the current mode over
 * `cornerTime`, and blinks through Wait, On and Off phases whose lengths
 * (in milliseconds) come from the mode. The easing curve is a parameter;
 * the mask bind group is only present or absent.
 */
module Cursors {
  import opened Region
  import opened Wrappers
  import opened Frames

  datatype CursorShape = Block | Horizontal | Vertical | NoShape

  datatype BlinkState = Wait | On | Off

  /** The parts of Neovim's mode_info the cursor uses; blink phases in milliseconds. */
  datatype ModeInfo = ModeInfo(cursorShape: CursorShape, cellPercentage: int,
                               blinkwait: int, blinkon: int, blinkoff: int)

  /** `glm::mix`: the point a fraction `t` of the way from `a` to `b`. */
  function Mix(a: Vec2, b: Vec2, t: real): Vec2 {
    Vec2(a.x * (1.0 - t) + b.x * t, a.y * (1.0 - t) + b.y * t)
  }

  /** The size of the cursor quad for a shape taking `ratio` of the cell. */
  function ShapeSize(shape: CursorShape, ratio: real, full: Vec2): Vec2 {
    match shape
    case Horizontal => Vec2(full.x, full.y * ratio)
    case Vertical => Vec2(full.x * ratio, full.y)
    case _ => full
  }

  /** The top-left offset of the cursor quad inside the cell. */
  function ShapeOffset(shape: CursorShape, ratio: real, full: Vec2): Vec2 {
    if shape == Horizontal then Vec2(0.0, full.y * (1.0 - ratio)) else Zero
  }

  /** The quad a mode's cursor settles on, relative to the cell's top-left corner. */
  function ShapeCorners(mode: ModeInfo, full: Vec2): Corners {
    var ratio := mode.cellPercentage as real / 100.0;
    MakeRegion(ShapeOffset(mode.cursorShape, ratio, full), ShapeSize(mode.cursorShape, ratio, full))
  }

  /**
   * For a percentage between 0 and 100 the cursor quad lies inside the cell:
   * a block fills it, a horizontal bar sits on its bottom edge and spans its
   * width, a vertical bar sits on its left edge and spans its height.
   */
  lemma ShapeInsideCell(mode: ModeInfo, full: Vec2)
    requires 0 <= mode.cellPercentage <= 100 && full.x >= 0.0 && full.y >= 0.0
    ensures var q := ShapeCorners(mode, full);
      && 0.0 <= q[0].x <= q[2].x <= full.x && 0.0 <= q[0].y <= q[2].y <= full.y
      && (mode.cursorShape == Horizontal ==> q[0].x == 0.0 && q[2].x == full.x && q[2].y == full.y)
      && (mode.cursorShape == Vertical ==> q[0] == Zero && q[2].y == full.y)
      && (mode.cursorShape in {Block, NoShape} ==> q[0] == Zero && q[2] == full)
  {
    var ratio := mode.cellPercentage as real / 100.0;
    ShapeWithinCell(mode.cursorShape, ratio, full);
  }

  lemma ShapeWithinCell(shape: CursorShape, ratio: real, full: Vec2)
    requires 0.0 <= ratio <= 1.0 && full.x >= 0.0 && full.y >= 0.0
    ensures var o, z := ShapeOffset(shape, ratio, full), ShapeSize(shape, ratio, full);
      && 0.0 <= o.x && 0.0 <= z.x && o.x + z.x <= full.x
      && 0.0 <= o.y && 0.0 <= z.y && o.y + z.y <= full.y
      && (shape == Horizontal ==> o.x == 0.0 && z.x == full.x && o.y + z.y == full.y)
      && (shape == Vertical ==> o == Zero && z.y == full.y)
      && (shape != Horizontal && shape != Vertical ==> o == Zero && z == full)
  {
    match shape
    case Horizontal =>
      ScaleWithin(full.y, ratio);
      assert ShapeOffset(shape, ratio, full) == Vec2(0.0, full.y * (1.0 - ratio));
      assert ShapeSize(shape, ratio, full) == Vec2(full.x, full.y * ratio);
    case Vertical =>
      ScaleWithin(full.x, ratio);
      assert ShapeSize(shape, ratio, full) == Vec2(full.x * ratio, full.y);
    case _ =>
  }

  /**
   * Scaling a non-negative length by a ratio in [0, 1] keeps it within
   * [0, length], and the two parts the ratio splits it into add up to it.
   */
  lemma ScaleWithin(a: real, r: real)
    requires a >= 0.0 && 0.0 <= r <= 1.0
    ensures 0.0 <= a * r <= a && 0.0 <= a * (1.0 - r) && a * (1.0 - r) + a * r == a
  {
    assert a * r + a * (1.0 - r) == a;
    assert a * (1.0 - r) >= 0.0;
  }

  /** Advance of a blink phase clock: the phase ends once it has run its length. */
  function NextBlink(state: BlinkState, elapsed: real, mode: ModeInfo): (BlinkState, real) {
    match state
    case Wait => if elapsed >= mode.blinkwait as real then (On, 0.0) else (Wait, elapsed)
    case On => if elapsed >= mode.blinkon as real then (Off, 0.0) else (On, elapsed)
    case Off => if elapsed >= mode.blinkoff as real then (On, 0.0) else (Off, elapsed)
  }

  /** Blinking never returns to Wait, and On and Off alternate. */
  lemma NextBlinkCycle(state: BlinkState, elapsed: real, mode: ModeInfo)
    ensures var (s, e) := NextBlink(state, elapsed, mode);
      && (s == Wait ==> state == Wait && e == elapsed)
      && (s != state ==> e == 0.0 && (state == On <==> s == Off))
      && (s == state ==> e == elapsed)
  {
  }

  /** The point a fraction between 0 and 1 of the way from `a` to `b`. */
  ghost predicate OnSegment(p: Vec2, a: Vec2, b: Vec2) {
    exists x :: 0.0 <= x <= 1.0 && p == Mix(a, b, x)
  }

  /** An easing curve that maps the clock's progress in [0, 1) into [0, 1]. */
  ghost predicate EaseInUnit(ease: real -> real) {
    forall t :: 0.0 <= t < 1.0 ==> 0.0 <= ease(t) <= 1.0
  }

  /** The position clock: where the cursor is, where the glide started and ends, and its clock. */
  datatype Glide = Glide(pos: Vec2, start: Vec2, dest: Vec2, elapsed: real)

  /** One frame of the position clock, `dt` seconds long. */
  function GlideStep(g: Glide, dt: real, time: real, ease: real -> real): Glide
    requires time > 0.0
  {
    if g.pos == g.dest then g
    else
      var e := g.elapsed + dt;
      if e >= time then g.(pos := g.dest, elapsed := 0.0)
      else g.(pos := Mix(g.start, g.dest, ease(e / time)), elapsed := e)
  }

  /** Successive frames of the position clock. */
  function GlideFrames(g: Glide, dts: seq<real>, time: real, ease: real -> real): Glide
    requires time > 0.0
    decreases |dts|
  {
    if dts == [] then g else GlideFrames(GlideStep(g, dts[0], time, ease), dts[1..], time, ease)
  }

  /**
   * A glide lands: once the frames' times add up to the jump time, the
   * cursor sits exactly on its destination, and the clock stays below the
   * jump time throughout.
   */
  lemma {:induction false} GlideLands(g: Glide, dts: seq<real>, time: real, ease: real -> real)
    requires time > 0.0 && g.elapsed < time
    ensures var r := GlideFrames(g, dts, time, ease);
      && r.start == g.start && r.dest == g.dest && r.elapsed < time
      && (g.elapsed + Duration(dts) >= time ==> r.pos == g.dest)
    decreases |dts|
  {
    if dts != [] {
      var next := GlideStep(g, dts[0], time, ease);
      GlideLands(next, dts[1..], time, ease);
      if next.pos == g.dest && g.elapsed + Duration(dts) >= time {
        GlideStaysLanded(next, dts[1..], time, ease);
      }
    }
  }

  /** A cursor on its destination stays there. */
  lemma {:induction false} GlideStaysLanded(g: Glide, dts: seq<real>, time: real, ease: real -> real)
    requires time > 0.0 && g.pos == g.dest
    ensures GlideFrames(g, dts, time, ease) == g
    decreases |dts|
  {
    if dts != [] {
      GlideStaysLanded(g, dts[1..], time, ease);
    }
  }

  /**
   * With an easing curve into [0, 1] and frames of non-negative length, a
   * cursor that starts on the segment from the glide's start to its
   * destination stays on it, frame after frame.
   */
  lemma {:induction false} GlideOnSegment(g: Glide, dts: seq<real>, time: real, ease: real -> real)
    requires time > 0.0 && 0.0 <= g.elapsed < time && NonNegative(dts) && EaseInUnit(ease)
    requires OnSegment(g.pos, g.start, g.dest)
    ensures OnSegment(GlideFrames(g, dts, time, ease).pos, g.start, g.dest)
    decreases |dts|
  {
    if dts != [] {
      var next := GlideStep(g, dts[0], time, ease);
      assert OnSegment(next.pos, g.start, g.dest) by {
        if g.pos != g.dest {
          var e := g.elapsed + dts[0];
          if e >= time {
            MixEnds(g.start, g.dest);
          } else {
            Progress(e, time);
            assert next.pos == Mix(g.start, g.dest, ease(e / time));
          }
        }
      }
      GlideOnSegment(next, dts[1..], time, ease);
    }
  }

  /** A clock below its time has made progress in [0, 1). */
  lemma Progress(e: real, time: real)
    requires 0.0 <= e < time
    ensures 0.0 <= e / time < 1.0
  {
    assert e / time * time == e;
  }

  /** `Mix` is the start at 0 and the end at 1. */
  lemma MixEnds(a: Vec2, b: Vec2)
    ensures Mix(a, b, 0.0) == a && Mix(a, b, 1.0) == b
  {
  }

  /** A glide set off by `SetDestPos` starts on its segment. */
  lemma GlideStartsOnSegment(start: Vec2, dest: Vec2)
    ensures OnSegment(start, start, dest)
  {
    MixEnds(start, dest);
  }

  /** Every corner of `a` mixed with the matching corner of `b`. */
  function MixCorners(a: Corners, b: Corners, t: real): Corners {
    [Mix(a[0], b[0], t), Mix(a[1], b[1], t), Mix(a[2], b[2], t), Mix(a[3], b[3], t)]
  }

  /** The shape clock: the quad's corners, where the morph started and ends, and its clock. */
  datatype Morph = Morph(corners: Corners, start: Corners, dest: Corners, elapsed: real)

  /** One frame of the shape clock, `dt` seconds long. */
  function MorphStep(m: Morph, dt: real, time: real, ease: real -> real): Morph
    requires time > 0.0
  {
    if m.corners == m.dest then m
    else
      var e := m.elapsed + dt;
      if e >= time then m.(corners := m.dest, elapsed := 0.0)
      else m.(corners := MixCorners(m.start, m.dest, ease(e / time)), elapsed := e)
  }

  /** Successive frames of the shape clock. */
  function MorphFrames(m: Morph, dts: seq<real>, time: real, ease: real -> real): Morph
    requires time > 0.0
    decreases |dts|
  {
    if dts == [] then m else MorphFrames(MorphStep(m, dts[0], time, ease), dts[1..], time, ease)
  }

  /** Every corner of `c` lies on the segment from its start corner to its target corner. */
  ghost predicate CornersOnSegments(c: Corners, a: Corners, b: Corners) {
    forall i :: 0 <= i < 4 ==> OnSegment(c[i], a[i], b[i])
  }

  /**
   * A morph lands: once the frames' times add up to the corner time, the
   * quad has exactly the mode's shape, and the clock stays below the corner
   * time throughout.
   */
  lemma {:induction false} MorphLands(m: Morph, dts: seq<real>, time: real, ease: real -> real)
    requires time > 0.0 && m.elapsed < time
    ensures var r := MorphFrames(m, dts, time, ease);
      && r.start == m.start && r.dest == m.dest && r.elapsed < time
      && (m.elapsed + Duration(dts) >= time ==> r.corners == m.dest)
    decreases |dts|
  {
    if dts != [] {
      var next := MorphStep(m, dts[0], time, ease);
      MorphLands(next, dts[1..], time, ease);
      if next.corners == m.dest && m.elapsed + Duration(dts) >= time {
        MorphStaysLanded(next, dts[1..], time, ease);
      }
    }
  }

  /** A quad that has its target shape keeps it. */
  lemma {:induction false} MorphStaysLanded(m: Morph, dts: seq<real>, time: real, ease: real -> real)
    requires time > 0.0 && m.corners == m.dest
    ensures MorphFrames(m, dts, time, ease) == m
    decreases |dts|
  {
    if dts != [] {
      MorphStaysLanded(m, dts[1..], time, ease);
    }
  }

  /**
   * With an easing curve into [0, 1] and frames of non-negative length,
   * every corner stays on the segment from its start to its target.
   */
  lemma {:induction false} MorphOnSegments(m: Morph, dts: seq<real>, time: real, ease: real -> real)
    requires time > 0.0 && 0.0 <= m.elapsed < time && NonNegative(dts) && EaseInUnit(ease)
    requires CornersOnSegments(m.corners, m.start, m.dest)
    ensures CornersOnSegments(MorphFrames(m, dts, time, ease).corners, m.start, m.dest)
    decreases |dts|
  {
    if dts != [] {
      var next := MorphStep(m, dts[0], time, ease);
      assert CornersOnSegments(next.corners, m.start, m.dest) by {
        if m.corners != m.dest {
          var e := m.elapsed + dts[0];
          forall i | 0 <= i < 4
            ensures OnSegment(next.corners[i], m.start[i], m.dest[i])
          {
            if e >= time {
              MixEnds(m.start[i], m.dest[i]);
            } else {
              Progress(e, time);
              assert next.corners[i] == Mix(m.start[i], m.dest[i], ease(e / time));
            }
          }
        }
      }
      MorphOnSegments(next, dts[1..], time, ease);
    }
  }

  class Cursor {
    /** The current mode; none before the first mode change. */
    var modeInfo: Option<ModeInfo>
    /** The size of a full cell. */
    var fullSize: Vec2
    var pos: Vec2
    var destPos: Vec2
    var startPos: Vec2
    var jumpElasped: real
    const jumpTime: real
    var corners: Corners
    var startCorners: Corners
    var destCorners: Corners
    var cornerElasped: real
    const cornerTime: real
    var blink: bool
    var blinkState: BlinkState
    var blinkElasped: real
    /** currMaskBG is set. */
    var hasMaskBG: bool

    /**
     * The clocks have positive lengths and run below them, and blinking is on only with a mode
     * whose three phases are non-zero; while it is off the phase is Wait.
     */
    ghost predicate Valid()
      reads this
    {
      && jumpTime > 0.0 && cornerTime > 0.0
      && jumpElasped < jumpTime && cornerElasped < cornerTime
      && (blink ==> modeInfo.Some? && modeInfo.value.blinkwait != 0
                    && modeInfo.value.blinkon != 0 && modeInfo.value.blinkoff != 0)
      && (!blink ==> blinkState == Wait)
    }

    constructor (jumpTime: real, cornerTime: real, fullSize: Vec2)
      requires jumpTime > 0.0 && cornerTime > 0.0
      ensures Valid() && this.jumpTime == jumpTime && this.cornerTime == cornerTime
      ensures this.fullSize == fullSize && modeInfo == None && !blink && !hasMaskBG
    {
      this.jumpTime := jumpTime;
      this.cornerTime := cornerTime;
      this.fullSize := fullSize;
      modeInfo := None;
      pos, destPos, startPos := Zero, Zero, Zero;
      jumpElasped := 0.0;
      corners, startCorners, destCorners := [Zero, Zero, Zero, Zero], [Zero, Zero, Zero, Zero], [Zero, Zero, Zero, Zero];
      cornerElasped := 0.0;
      blink := false;
      blinkState := Wait;
      blinkElasped := 0.0;
      hasMaskBG := false;
    }

    /**
     * Starts a glide from the current position to `p` and restarts the blink
     * cycle; false and no change when `p` already is the destination.
     */
    method SetDestPos(p: Vec2) returns (moved: bool)
      requires Valid()
      modifies this`destPos, this`startPos, this`jumpElasped, this`blinkState, this`blinkElasped
      ensures Valid()
      ensures moved == (p != old(destPos))
      ensures !moved ==> destPos == old(destPos) && startPos == old(startPos) && jumpElasped == old(jumpElasped)
                         && blinkState == old(blinkState) && blinkElasped == old(blinkElasped)
      ensures moved ==> destPos == p && startPos == pos && jumpElasped == 0.0 && blinkState == Wait
      ensures moved ==> blinkElasped == if blink then 0.0 else old(blinkElasped)
    {
      if p == destPos {
        return false;
      }
      destPos := p;
      startPos := pos;
      jumpElasped := 0.0;
      if blink {
        blinkState := Wait;
        blinkElasped := 0.0;
      }
      moved := true;
    }

    /**
     * Switches to `mode`: the quad starts morphing from where it is to the
     * mode's shape, the blink cycle restarts when it was running, and
     * blinking is on exactly when the mode's three blink phases are non-zero.
     */
    method SetMode(mode: ModeInfo)
      requires Valid()
      modifies this`modeInfo, this`destCorners, this`startCorners, this`cornerElasped,
               this`blink, this`blinkState, this`blinkElasped
      ensures Valid()
      ensures modeInfo == Some(mode)
      ensures destCorners == ShapeCorners(mode, fullSize)
      ensures startCorners == corners && cornerElasped == 0.0
      ensures blink == (mode.blinkwait != 0 && mode.blinkon != 0 && mode.blinkoff != 0)
      ensures blinkState == Wait
      ensures blinkElasped == if old(blink) then 0.0 else old(blinkElasped)
    {
      modeInfo := Some(mode);
      var ratio := mode.cellPercentage as real / 100.0;
      var size := fullSize;
      var offset := Zero;
      match mode.cursorShape {
        case Block =>
        case Horizontal =>
          size := Vec2(size.x, size.y * ratio);
          offset := Vec2(offset.x, fullSize.y * (1.0 - ratio));
        case Vertical =>
          size := Vec2(size.x * ratio, size.y);
        case NoShape =>
      }
      assert offset == ShapeOffset(mode.cursorShape, ratio, fullSize);
      assert size == ShapeSize(mode.cursorShape, ratio, fullSize);
      destCorners := MakeRegion(offset, size);
      startCorners := corners;
      cornerElasped := 0.0;
      if blink {
        blinkState := Wait;
        blinkElasped := 0.0;
      }
      blink := mode.blinkwait != 0 && mode.blinkon != 0 && mode.blinkoff != 0;
    }

    /**
     * Advances the three clocks by `dt` seconds. A glide or morph that has
     * run its full time lands exactly on its target; before that the
     * position is eased between start and target. The blink clock counts
     * milliseconds.
     */
    method Update(dt: real, ease: real -> real)
      requires Valid()
      modifies this`pos, this`jumpElasped, this`corners, this`cornerElasped,
               this`blinkState, this`blinkElasped
      ensures Valid()
      ensures Glide(pos, startPos, destPos, jumpElasped)
              == GlideStep(Glide(old(pos), startPos, destPos, old(jumpElasped)), dt, jumpTime, ease)
      ensures Morph(corners, startCorners, destCorners, cornerElasped)
              == MorphStep(Morph(old(corners), startCorners, destCorners, old(cornerElasped)), dt, cornerTime, ease)
      ensures !blink ==> blinkState == old(blinkState) && blinkElasped == old(blinkElasped)
      ensures blink ==> (blinkState, blinkElasped) == NextBlink(old(blinkState), old(blinkElasped) + dt * 1000.0, modeInfo.value)
    {
      UpdatePosition(dt, ease);
      UpdateCorners(dt, ease);
      UpdateBlink(dt);
    }

    /** The position clock of `Update`. */
    method UpdatePosition(dt: real, ease: real -> real)
      requires jumpTime > 0.0
      modifies this`pos, this`jumpElasped
      ensures Glide(pos, startPos, destPos, jumpElasped)
              == GlideStep(Glide(old(pos), startPos, destPos, old(jumpElasped)), dt, jumpTime, ease)
      ensures old(pos) == destPos ==> pos == old(pos) && jumpElasped == old(jumpElasped)
      ensures old(pos) != destPos ==>
        var e := old(jumpElasped) + dt;
        if e >= jumpTime then pos == destPos && jumpElasped == 0.0
        else jumpElasped == e && pos == Mix(startPos, destPos, ease(e / jumpTime))
    {
      if pos != destPos {
        jumpElasped := jumpElasped + dt;
        if jumpElasped >= jumpTime {
          pos := destPos;
          jumpElasped := 0.0;
        } else {
          var t := jumpElasped / jumpTime;
          pos := Mix(startPos, destPos, ease(t));
        }
      }
    }

    /** The shape clock of `Update`: each of the four corners is eased on its own. */
    method UpdateCorners(dt: real, ease: real -> real)
      requires cornerTime > 0.0
      modifies this`corners, this`cornerElasped
      ensures Morph(corners, startCorners, destCorners, cornerElasped)
              == MorphStep(Morph(old(corners), startCorners, destCorners, old(cornerElasped)), dt, cornerTime, ease)
      ensures old(corners) == destCorners ==> corners == old(corners) && cornerElasped == old(cornerElasped)
      ensures old(corners) != destCorners ==>
        var e := old(cornerElasped) + dt;
        if e >= cornerTime then corners == destCorners && cornerElasped == 0.0
        else cornerElasped == e &&
             forall i :: 0 <= i < 4 ==> corners[i] == Mix(startCorners[i], destCorners[i], ease(e / cornerTime))
    {
      if corners != destCorners {
        cornerElasped := cornerElasped + dt;
        if cornerElasped >= cornerTime {
          corners := destCorners;
          cornerElasped := 0.0;
        } else {
          var t := cornerElasped / cornerTime;
          var next: Corners := corners;
          var i := 0;
          while i < 4
            invariant 0 <= i <= 4
            invariant forall j :: 0 <= j < i ==> next[j] == Mix(startCorners[j], destCorners[j], ease(t))
          {
            next := next[i := Mix(startCorners[i], destCorners[i], ease(t))];
            i := i + 1;
          }
          assert next == MixCorners(startCorners, destCorners, ease(t));
          corners := next;
        }
      }
    }

    /** The blink clock of `Update`, in milliseconds. */
    method UpdateBlink(dt: real)
      requires Valid()
      modifies this`blinkState, this`blinkElasped
      ensures Valid()
      ensures !blink ==> blinkState == old(blinkState) && blinkElasped == old(blinkElasped)
      ensures blink ==> (blinkState, blinkElasped) == NextBlink(old(blinkState), old(blinkElasped) + dt * 1000.0, modeInfo.value)
    {
      if blink {
        blinkElasped := blinkElasped + dt * 1000.0;
        match blinkState {
          case Wait =>
            if blinkElasped >= modeInfo.value.blinkwait as real {
              blinkState := On;
              blinkElasped := 0.0;
            }
          case On =>
            if blinkElasped >= modeInfo.value.blinkon as real {
              blinkState := Off;
              blinkElasped := 0.0;
            }
          case Off =>
            if blinkElasped >= modeInfo.value.blinkoff as real {
              blinkState := On;
              blinkElasped := 0.0;
            }
        }
      }
    }

    /** The cursor is drawn: a mode with a shape, not in the Off blink phase, with a mask. */
    predicate ShouldRender()
      reads this
    {
      modeInfo.Some? && modeInfo.value.cursorShape != NoShape && blinkState != Off && hasMaskBG
    }
  }

  /** Without blinking the cursor is never hidden by the blink phase. */
  lemma ShouldRenderWithoutBlink(c: Cursor)
    requires c.Valid() && !c.blink
    ensures c.ShouldRender() <==> c.modeInfo.Some? && c.modeInfo.value.cursorShape != NoShape && c.hasMaskBG
  {
  }
}
