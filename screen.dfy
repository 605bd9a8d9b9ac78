/**
 * Interactive moves and resizes, frame placement, and desktop switching
 * (screen.c). The pointer events a drag consumes are a parameter: the motion
 * events the server delivers, ending with the first event of another kind.
 */
module Screen {
  import opened Protocol
  import opened ClientRecord
  import opened Util
  import opened EwmhState
  import opened NewClient

  /** `jbwm_point_t`: a pair of 16-bit coordinates. */
  datatype Point = Point(x: int, y: int)

  /** Two `int` coordinates stored in a `jbwm_point_t`, each truncated to 16 bits. */
  function PointOf(x: int, y: int): (p: Point)
    ensures -32768 <= p.x <= 32767 && -32768 <= p.y <= 32767
    ensures -32768 <= x <= 32767 && -32768 <= y <= 32767 ==> p == Point(x, y)
  {
    Point(ToInt16(x), ToInt16(y))
  }

  /** The title bar's height held in a `uint8_t` offset, or 0 when there is no title bar to allow for. */
  function TitleOffset(titled: bool): (r: Byte)
    ensures !titled ==> r == 0
    ensures titled && TDim < 256 ==> r == TDim
  {
    if titled then ToByte(TDim) else 0
  }

  /**
   * `draw_outline(c)`: nothing for a borderless client; otherwise the
   * rubber-band rectangle around the frame, title bar included unless the
   * client has none.
   */
  function Outline(c: Client, root: Window): (r: seq<Request>)
    ensures c.border == 0 <==> r == []
    ensures |r| <= 1
  {
    if c.border == 0 then []
    else
      var off := TitleOffset(NoTitleBar !in c.opt);
      [DrawRectangle(root, c.size.x, c.size.y - off, c.size.width + c.border, c.size.height + c.border + off)]
  }

  /**
   * `moveresize(c)`: the frame to (x, y - offset, width, height + offset),
   * the window to (0, offset) inside it, where the offset is the title bar's
   * height unless the client has no title bar or is fullscreen; the title bar
   * is redrawn only when there is one, and the shape is always reapplied.
   */
  function MoveResizeRequests(c: Client): (r: seq<Request>)
    ensures 3 <= |r| <= 4
    ensures r[0].MoveResizeWindow? && r[0].w == c.parent
    ensures r[1].MoveResizeWindow? && r[1].w == c.window
    ensures r[|r| - 1] == SetShape(c.window)
  {
    var off := TitleOffset(NoTitleBar !in c.opt && Fullscreen !in c.opt);
    [MoveResizeWindow(c.parent, c.size.x, c.size.y - off, c.size.width, c.size.height + off),
     MoveResizeWindow(c.window, 0, off, c.size.width, c.size.height)]
    + (if off != 0 then [UpdateTitleBar(c.window)] else []) + [SetShape(c.window)]
  }

  /**
   * The application window keeps the client's position on screen, and the
   * frame holds exactly the window plus the title bar above it; the title
   * bar is redrawn exactly when there is room for one.
   */
  lemma WindowFillsFrame(c: Client)
    ensures var r := MoveResizeRequests(c);
      && r[0].x + r[1].x == c.size.x && r[0].y + r[1].y == c.size.y
      && r[0].width == r[1].width == c.size.width
      && r[0].height == r[1].height + r[1].y
      && (UpdateTitleBar(c.window) in r <==> r[1].y != 0)
  {
  }

  /** With a title bar of at most 255 pixels, the window sits as far below the frame's top as `_NET_FRAME_EXTENTS` says (less the border). */
  lemma FrameOffsetMatchesExtents(c: Client)
    requires TDim < 256 && Fullscreen !in c.opt
    ensures MoveResizeRequests(c)[1].y == FrameExtents(c.border, NoTitleBar in c.opt)[2] - c.border
  {
  }

  /** For a bordered, non-fullscreen client the outline traces the frame `moveresize` places, grown by the border. */
  lemma OutlineTracesFrame(c: Client, root: Window)
    requires c.border == 1 && Fullscreen !in c.opt
    ensures var o := Outline(c, root)[0]; var f := MoveResizeRequests(c)[0];
      o.x == f.x && o.y == f.y && o.width == f.width + 1 && o.height == f.height + 1
  {
  }

  /**
   * `set_size(c, x, y)`: the pointer (its coordinates passed as `int16_t`)
   * becomes the corner opposite the fixed top-left; the size is the distance.
   */
  function SetSize(s: SizeHints, x: int, y: int): (r: SizeHints)
    ensures r == s.(width := r.width, height := r.height)
    ensures r.width >= 0 && r.height >= 0
    ensures r.x + r.width == ToInt16(x) || r.x - r.width == ToInt16(x)
    ensures r.y + r.height == ToInt16(y) || r.y - r.height == ToInt16(y)
  {
    s.(width := Abs(s.x - ToInt16(x)), height := Abs(s.y - ToInt16(y)))
  }

  /**
   * `set_position(c, old, start, x, y)`: the position the window had when the
   * drag began, moved by how far the pointer has moved since then.
   * `snap_client`, which follows, is not part of this model.
   */
  function SetPosition(s: SizeHints, original: Point, start: Point, x: int, y: int): (r: SizeHints)
    ensures r == s.(x := r.x, y := r.y)
  {
    s.(x := original.x - start.x + ToInt16(x), y := original.y - start.y + ToInt16(y))
  }

  /** Between two motion events the window moves exactly as far as the pointer did. */
  lemma DragFollowsPointer(s: SizeHints, t: SizeHints, original: Point, start: Point, p: Point, q: Point)
    requires -32768 <= p.x <= 32767 && -32768 <= p.y <= 32767
    requires -32768 <= q.x <= 32767 && -32768 <= q.y <= 32767
    ensures var a := SetPosition(s, original, start, p.x, p.y);
      var b := SetPosition(t, original, start, q.x, q.y);
      b.x - a.x == q.x - p.x && b.y - a.y == q.y - p.y
  {
  }

  /** A pointer event of the grab: a motion to a root position, or anything else (a button press or release). */
  datatype MouseEvent = Motion(x: int, y: int) | OtherMouseEvent

  /** The geometry one motion event gives, from the geometry before it. */
  function Moved(s: SizeHints, resize: bool, original: Point, start: Point, e: MouseEvent): SizeHints
    requires e.Motion?
  {
    if resize then SetSize(s, e.x, e.y) else SetPosition(s, original, start, e.x, e.y)
  }

  /** Only the last motion decides the geometry: a later motion overrides an earlier one entirely. */
  lemma MovedOverrides(s: SizeHints, resize: bool, original: Point, start: Point, e: MouseEvent, f: MouseEvent)
    requires e.Motion? && f.Motion?
    ensures Moved(Moved(s, resize, original, start, e), resize, original, start, f) == Moved(s, resize, original, start, f)
  {
  }

  /** One pass of the drag loop: outline off, new geometry, then the outline again for a bordered client or the geometry applied for a borderless one. */
  function DragStep(c: Client, root: Window, resize: bool, original: Point, start: Point, e: MouseEvent): (r: (Client, seq<Request>))
    requires e.Motion?
    ensures r.0 == c.(size := Moved(c.size, resize, original, start, e))
  {
    var c' := c.(size := Moved(c.size, resize, original, start, e));
    (c', Outline(c, root) + (if c.border != 0 then Outline(c', root) else MoveResizeRequests(c')))
  }

  /** The number of motion events before the first other event. */
  function MotionCount(evs: seq<MouseEvent>): (n: nat)
    ensures n <= |evs|
    ensures forall j :: 0 <= j < n ==> evs[j].Motion?
    ensures n < |evs| ==> !evs[n].Motion?
  {
    if evs == [] || !evs[0].Motion? then 0 else 1 + MotionCount(evs[1..])
  }

  /** `drag_event_loop`: one step per motion event, up to the first other event. */
  function DragLoop(c: Client, root: Window, resize: bool, original: Point, start: Point, evs: seq<MouseEvent>): (r: (Client, seq<Request>))
    ensures r.0 == c.(size := r.0.size)
    decreases |evs|
  {
    if evs == [] || !evs[0].Motion? then (c, [])
    else
      var s := DragStep(c, root, resize, original, start, evs[0]);
      var t := DragLoop(s.0, root, resize, original, start, evs[1..]);
      (t.0, s.1 + t.1)
  }

  /** After the loop the client has the geometry of the last motion event, or its own when there was none. */
  lemma {:induction false} DragLoopLastMotion(c: Client, root: Window, resize: bool, original: Point, start: Point, evs: seq<MouseEvent>)
    ensures var n := MotionCount(evs);
      DragLoop(c, root, resize, original, start, evs).0 ==
        (if n == 0 then c else c.(size := Moved(c.size, resize, original, start, evs[n - 1])))
    decreases |evs|
  {
    if evs != [] && evs[0].Motion? {
      var c1 := DragStep(c, root, resize, original, start, evs[0]).0;
      DragLoopLastMotion(c1, root, resize, original, start, evs[1..]);
      var n := MotionCount(evs[1..]);
      if n > 0 {
        MovedOverrides(c.size, resize, original, start, evs[0], evs[1..][n - 1]);
      }
    }
  }

  /** The client and the requests after the first `k` motion events, all of which precede the first other event. */
  function DragUpTo(c: Client, root: Window, resize: bool, original: Point, start: Point, evs: seq<MouseEvent>, k: nat): (Client, seq<Request>)
    requires k <= MotionCount(evs)
  {
    if k == 0 then (c, [])
    else
      var p := DragUpTo(c, root, resize, original, start, evs, k - 1);
      var s := DragStep(p.0, root, resize, original, start, evs[k - 1]);
      (s.0, p.1 + s.1)
  }

  /** From a motion event on, the loop is that event's step followed by the loop from the next event. */
  lemma DragLoopUnfold(c: Client, root: Window, resize: bool, original: Point, start: Point, evs: seq<MouseEvent>, j: nat)
    requires j < |evs| && evs[j].Motion?
    ensures var s := DragStep(c, root, resize, original, start, evs[j]);
      var t := DragLoop(s.0, root, resize, original, start, evs[j + 1..]);
      DragLoop(c, root, resize, original, start, evs[j..]) == (t.0, s.1 + t.1)
  {
    assert evs[j..][1..] == evs[j + 1..];
    assert evs[j..][0] == evs[j];
  }

  /** The loop's result is what the first `k` steps did followed by the loop's result from event `k` on. */
  lemma {:induction false} DragLoopResumes(c: Client, root: Window, resize: bool, original: Point, start: Point, evs: seq<MouseEvent>, k: nat)
    requires k <= MotionCount(evs)
    ensures var p := DragUpTo(c, root, resize, original, start, evs, k);
      var t := DragLoop(p.0, root, resize, original, start, evs[k..]);
      DragLoop(c, root, resize, original, start, evs) == (t.0, p.1 + t.1)
  {
    if k == 0 {
      assert evs[0..] == evs;
      var t := DragLoop(c, root, resize, original, start, evs);
      assert [] + t.1 == t.1;
    } else {
      DragLoopResumes(c, root, resize, original, start, evs, k - 1);
      var p := DragUpTo(c, root, resize, original, start, evs, k - 1);
      DragLoopUnfold(p.0, root, resize, original, start, evs, k - 1);
      var st := DragStep(p.0, root, resize, original, start, evs[k - 1]);
      AppendAssoc(p.1, st.1, DragLoop(st.0, root, resize, original, start, evs[k..]).1);
    }
  }

  /** The loop's result is the result of its motion events, one step each. */
  lemma DragLoopIsSteps(c: Client, root: Window, resize: bool, original: Point, start: Point, evs: seq<MouseEvent>)
    ensures DragLoop(c, root, resize, original, start, evs) == DragUpTo(c, root, resize, original, start, evs, MotionCount(evs))
  {
    var k := MotionCount(evs);
    DragLoopResumes(c, root, resize, original, start, evs, k);
    var p := DragUpTo(c, root, resize, original, start, evs, k);
    if k < |evs| {
      assert evs[k..][0] == evs[k];
    } else {
      assert evs[k..] == [];
    }
    assert DragLoop(p.0, root, resize, original, start, evs[k..]) == (p.0, []);
    assert p.1 + [] == p.1;
  }

  /** The registry and the log after the first steps of a drag of client `i` that began in `cs0` and `log0`. */
  ghost predicate Dragged(m: Manager, cs0: seq<Client>, log0: seq<Request>, i: nat, p: (Client, seq<Request>))
    reads m
  {
    m.Valid() && i < |cs0| && m.clients == cs0[i := p.0] && m.log == log0 + p.1
  }

  /** One pass of `drag_event_loop`'s body, for the motion event `evs[k]`, on the registry's client `i`. */
  method DragEventStep(m: Manager, i: nat, root: Window, resize: bool, original: Point, start: Point,
                       evs: seq<MouseEvent>, k: nat, ghost c0: Client, ghost cs0: seq<Client>, ghost log0: seq<Request>)
    requires k < MotionCount(evs)
    requires Dragged(m, cs0, log0, i, DragUpTo(c0, root, resize, original, start, evs, k))
    modifies m`clients, m`log
    ensures Dragged(m, cs0, log0, i, DragUpTo(c0, root, resize, original, start, evs, k + 1))
  {
    ghost var p := DragUpTo(c0, root, resize, original, start, evs, k);
    var c := m.clients[i];
    var e := evs[k];
    m.log := m.log + Outline(c, root);
    var c' := c.(size := if resize then SetSize(c.size, e.x, e.y) else SetPosition(c.size, original, start, e.x, e.y));
    SetClient(m, i, c');
    var after := if c'.border != 0 then Outline(c', root) else MoveResizeRequests(c');
    m.log := m.log + after;
    assert DragStep(c, root, resize, original, start, e) == (c', Outline(c, root) + after);
    AppendAssoc(log0 + p.1, Outline(c, root), after);
    AppendAssoc(log0, p.1, Outline(c, root) + after);
  }

  /**
   * `drag_event_loop(c, resize, original, start)` on the registry's client
   * `i`, consuming `evs`, whose last event ends the loop.
   */
  method DragEventLoop(m: Manager, i: nat, resize: bool, original: Point, start: Point, evs: seq<MouseEvent>)
    requires m.Valid() && i < |m.clients|
    requires |evs| > 0 && !evs[|evs| - 1].Motion?
    modifies m`clients, m`log
    ensures var c := old(m.clients[i]);
      var r := DragLoop(c, m.screens[c.screen].root, resize, original, start, evs);
      m.clients == old(m.clients)[i := r.0] && m.log == old(m.log) + r.1
    ensures m.Valid()
  {
    var root := m.screens[m.clients[i].screen].root;
    ghost var c0 := m.clients[i];
    ghost var cs0 := m.clients;
    ghost var log0 := m.log;
    var k := 0;
    while evs[k].Motion?
      invariant 0 <= k <= MotionCount(evs) && k < |evs|
      invariant Dragged(m, cs0, log0, i, DragUpTo(c0, root, resize, original, start, evs, k))
      decreases |evs| - k
    {
      DragEventStep(m, i, root, resize, original, start, evs, k, c0, cs0, log0);
      k := k + 1;
    }
    DragLoopIsSteps(c0, root, resize, original, start, evs);
  }

  /**
   * Everything `jbwm_drag(c, resize)` does, given the pointer position at the
   * start (`px`, `py`) and the events of the grab: raise the frame; give up a
   * resize of a client that may not be resized or is shaded; grab the
   * pointer; for a resize, warp it to the bottom-right corner; run the loop;
   * erase the outline; release the pointer; apply the geometry; and for a move
   * of a client that is not a tear-off, send it a synthetic ConfigureNotify.
   */
  function DragOutcome(c: Client, root: Window, resize: bool, px: int, py: int, evs: seq<MouseEvent>): (r: (Client, seq<Request>))
    ensures r.0 == c.(size := r.0.size)
  {
    if resize && (NoResize in c.opt || Shaded in c.opt) then (c, [RaiseWindow(c.parent)])
    else
      var r := DragLoop(c, root, resize, PointOf(c.size.x, c.size.y), PointOf(px, py), evs);
      (r.0, DragBegin(c, root, resize) + r.1 + DragEnd(r.0, root, resize))
  }

  /** The requests of an accepted drag before its loop. */
  function DragBegin(c: Client, root: Window, resize: bool): seq<Request> {
    [RaiseWindow(c.parent)] + GrabRequests(c, root, resize)
  }

  /** Grabbing the pointer, and for a resize warping it to the window's bottom-right corner. */
  function GrabRequests(c: Client, root: Window, resize: bool): seq<Request> {
    [GrabPointer(root)] + (if resize then [WarpPointer(c.window, c.size.width, c.size.height)] else [])
  }

  /** The requests of an accepted drag after its loop, for the client `c2` as the loop left it. */
  function DragEnd(c2: Client, root: Window, resize: bool): seq<Request> {
    Outline(c2, root) + [UngrabPointer] + MoveResizeRequests(c2)
    + (if !resize && Tearoff !in c2.opt
       then [SendConfigureNotify(c2.window, c2.size.x, c2.size.y, c2.size.width, c2.size.height)]
       else [])
  }

  /** The frame is always raised first; a refused resize does nothing else, and every other drag ends with the pointer released and the geometry applied. */
  lemma DragRaisesFirst(c: Client, root: Window, resize: bool, px: int, py: int, evs: seq<MouseEvent>)
    ensures var r := DragOutcome(c, root, resize, px, py, evs).1;
      && |r| > 0 && r[0] == RaiseWindow(c.parent)
      && (r == [RaiseWindow(c.parent)] <==> resize && (NoResize in c.opt || Shaded in c.opt))
      && (r != [RaiseWindow(c.parent)] ==> UngrabPointer in r && SetShape(c.window) in r)
  {
  }

  /** A synthetic ConfigureNotify ends the drag exactly for a move of a client that is not a tear-off. */
  lemma {:induction false} DragConfiguresOnlyMoves(c: Client, root: Window, resize: bool, px: int, py: int, evs: seq<MouseEvent>)
    ensures var o := DragOutcome(c, root, resize, px, py, evs);
      var r := o.1;
      r[|r| - 1].SendConfigureNotify? <==> !resize && Tearoff !in c.opt
  {
    var start := PointOf(px, py);
    var original := PointOf(c.size.x, c.size.y);
    var l := DragLoop(c, root, resize, original, start, evs);
    assert l.0.opt == c.opt && l.0.window == c.window;
    if !(resize && (NoResize in c.opt || Shaded in c.opt)) {
      var e := DragEnd(l.0, root, resize);
      assert DragOutcome(c, root, resize, px, py, evs).1[|DragOutcome(c, root, resize, px, py, evs).1| - 1] == e[|e| - 1];
    }
  }

  /** A move ends with the window where the last motion put it: its starting position plus the pointer's displacement. */
  lemma DragMoveEndsAtLastMotion(c: Client, root: Window, px: int, py: int, evs: seq<MouseEvent>)
    requires MotionCount(evs) > 0
    ensures var n := MotionCount(evs); var e := evs[n - 1];
      var c2 := DragOutcome(c, root, false, px, py, evs).0;
      && c2.size.x == ToInt16(c.size.x) - ToInt16(px) + ToInt16(e.x)
      && c2.size.y == ToInt16(c.size.y) - ToInt16(py) + ToInt16(e.y)
      && c2.size.width == c.size.width && c2.size.height == c.size.height
  {
    DragLoopLastMotion(c, root, false, PointOf(c.size.x, c.size.y), PointOf(px, py), evs);
  }

  /** An allowed resize keeps the top-left corner and puts the opposite corner under the last motion. */
  lemma DragResizeEndsAtLastMotion(c: Client, root: Window, px: int, py: int, evs: seq<MouseEvent>)
    requires MotionCount(evs) > 0 && NoResize !in c.opt && Shaded !in c.opt
    ensures var n := MotionCount(evs); var e := evs[n - 1];
      var c2 := DragOutcome(c, root, true, px, py, evs).0;
      && c2.size.x == c.size.x && c2.size.y == c.size.y
      && c2.size.width == Abs(c.size.x - ToInt16(e.x)) && c2.size.height == Abs(c.size.y - ToInt16(e.y))
  {
    DragLoopLastMotion(c, root, true, PointOf(c.size.x, c.size.y), PointOf(px, py), evs);
  }

  /** `jbwm_drag(c, resize)` on the registry's client `i`. */
  method Drag(m: Manager, i: nat, resize: bool, px: int, py: int, evs: seq<MouseEvent>)
    requires m.Valid() && i < |m.clients|
    requires |evs| > 0 && !evs[|evs| - 1].Motion?
    modifies m`clients, m`log
    ensures var c := old(m.clients[i]);
      var o := DragOutcome(c, m.screens[c.screen].root, resize, px, py, evs);
      m.clients == old(m.clients)[i := o.0] && m.log == old(m.log) + o.1
    ensures m.Valid()
  {
    var c := m.clients[i];
    var root := m.screens[c.screen].root;
    m.log := m.log + [RaiseWindow(c.parent)];
    if resize && (NoResize in c.opt || Shaded in c.opt) {
      return;
    }
    var start := PointOf(px, py);
    var original := PointOf(c.size.x, c.size.y);
    GrabForDrag(m, c, root, resize);
    ghost var r := DragLoop(c, root, resize, original, start, evs);
    assert DragOutcome(c, root, resize, px, py, evs).0 == r.0;
    DragEventLoop(m, i, resize, original, start, evs);
    assert m.clients == old(m.clients)[i := r.0];
    EndDrag(m, i, root, resize);
    ghost var a, b, g, d, e := old(m.log), [RaiseWindow(c.parent)], GrabRequests(c, root, resize), r.1, DragEnd(r.0, root, resize);
    AppendAssoc(a, b, g);
    AppendAssoc(a, b + g, d);
    AppendAssoc(a, b + g + d, e);
  }

  /** `grab_pointer` on the root, the start position read, and for a resize `warp_corner`. */
  method GrabForDrag(m: Manager, c: Client, root: Window, resize: bool)
    modifies m`log
    ensures m.log == old(m.log) + GrabRequests(c, root, resize)
  {
    m.log := m.log + [GrabPointer(root)];
    if resize {
      m.log := m.log + [WarpPointer(c.window, c.size.width, c.size.height)];
    }
  }

  /** The end of `jbwm_drag`, after the loop: erase the outline, release the pointer, apply the geometry, and confirm a move. */
  method EndDrag(m: Manager, i: nat, root: Window, resize: bool)
    requires i < |m.clients|
    modifies m`log
    ensures m.log == old(m.log) + DragEnd(m.clients[i], root, resize)
  {
    var c2 := m.clients[i];
    m.log := m.log + Outline(c2, root) + [UngrabPointer] + MoveResizeRequests(c2);
    if !resize && Tearoff !in c2.opt {
      m.log := m.log + [SendConfigureNotify(c2.window, c2.size.x, c2.size.y, c2.size.width, c2.size.height)];
    }
  }

  /** `hide(c)`: unmap the frame and add `_NET_WM_STATE_HIDDEN` to the window's state. */
  method Hide(m: Manager, c: Client)
    modifies m`log, m`props
    ensures m.log == old(m.log) + [UnmapWindow(c.parent)]
    ensures m.props == Written(old(m.props), c.window, NetWmStateHidden, AddEntry)
  {
    m.log := m.log + [UnmapWindow(c.parent)];
    AddState(m, c.window, NetWmStateHidden);
  }

  /** `unhide(c)`: map the frame and clear every `_NET_WM_STATE_HIDDEN` entry of the window's state. */
  method Unhide(m: Manager, c: Client)
    modifies m`log, m`props
    ensures m.log == old(m.log) + [MapWindow(c.parent)]
    ensures m.props == Written(old(m.props), c.window, NetWmStateHidden, ZeroEntries)
  {
    m.log := m.log + [MapWindow(c.parent)];
    RemoveState(m, c.window, NetWmStateHidden);
  }

  /** What a desktop switch does to one client. */
  datatype Visibility = Show | Conceal | Keep

  /**
   * `switch_vdesk(s, v)` for one client, from the current desktop `cur`:
   * sticky clients are shown whatever their screen; on screen `s`, clients
   * of the current desktop are hidden and clients of `v` shown; every other
   * client is left as it is.
   */
  function SwitchAction(c: Client, s: nat, cur: int, v: int): (r: Visibility)
    ensures r == Show <==> Sticky in c.opt || (c.screen == s && c.vdesk != cur && c.vdesk == v)
    ensures r == Conceal <==> Sticky !in c.opt && c.screen == s && c.vdesk == cur
    ensures Sticky !in c.opt && c.screen != s ==> r == Keep
  {
    if Sticky in c.opt then Show
    else if c.screen != s then Keep
    else if c.vdesk == cur then Conceal
    else if c.vdesk == v then Show
    else Keep
  }

  /** The requests for one client's visibility change. */
  function VisibilityRequests(c: Client, a: Visibility): (r: seq<Request>)
    ensures |r| <= 1 && (r == [] <==> a == Keep)
    ensures MapWindow(c.parent) in r <==> a == Show
    ensures UnmapWindow(c.parent) in r <==> a == Conceal
  {
    match a
    case Show => [MapWindow(c.parent)]
    case Conceal => [UnmapWindow(c.parent)]
    case Keep => []
  }

  /** The `_NET_WM_STATE_HIDDEN` write for one client's visibility change. */
  function HiddenWrite(a: Visibility): StateWrite {
    match a
    case Show => ZeroEntries
    case Conceal => AddEntry
    case Keep => NoWrite
  }

  /** The requests of a switch over `cs`, head first. */
  function SwitchLog(cs: seq<Client>, s: nat, cur: int, v: int): seq<Request> {
    if cs == [] then []
    else
      var c := cs[|cs| - 1];
      SwitchLog(cs[..|cs| - 1], s, cur, v) + VisibilityRequests(c, SwitchAction(c, s, cur, v))
  }

  /** The property store after the per-client state writes of a switch over `cs`, head first. */
  function SwitchProps(p: Props, cs: seq<Client>, s: nat, cur: int, v: int): Props {
    if cs == [] then p
    else
      var c := cs[|cs| - 1];
      Written(SwitchProps(p, cs[..|cs| - 1], s, cur, v), c.window, NetWmStateHidden, HiddenWrite(SwitchAction(c, s, cur, v)))
  }

  /** A switch leaves the state of a window that is no client's exactly as it was. */
  lemma {:induction false} SwitchSparesOthers(p: Props, cs: seq<Client>, s: nat, cur: int, v: int, x: Window, b: Atom)
    requires b != 0
    requires forall j :: 0 <= j < |cs| ==> cs[j].window != x
    ensures HasState(SwitchProps(p, cs, s, cur, v), x, b) == HasState(p, x, b)
  {
    if cs != [] {
      var c := cs[|cs| - 1];
      var front := cs[..|cs| - 1];
      SwitchSparesOthers(p, front, s, cur, v, x, b);
      WrittenPresence(SwitchProps(p, front, s, cur, v), c.window, NetWmStateHidden,
        HiddenWrite(SwitchAction(c, s, cur, v)), x, b);
    }
  }

  /**
   * After a switch each client is hidden exactly as its action says: hidden
   * when concealed, not hidden when shown, and as before when kept; other
   * state atoms are not affected.
   */
  lemma {:induction false} SwitchHidden(p: Props, cs: seq<Client>, s: nat, cur: int, v: int, j: nat, b: Atom)
    requires Distinct(cs) && j < |cs| && b != 0
    ensures var w := cs[j].window; var a := SwitchAction(cs[j], s, cur, v);
      HasState(SwitchProps(p, cs, s, cur, v), w, b) ==
        (if b == NetWmStateHidden && a != Keep then a == Conceal else HasState(p, w, b))
  {
    var c := cs[|cs| - 1];
    var front := cs[..|cs| - 1];
    var w := cs[j].window;
    var q := SwitchProps(p, front, s, cur, v);
    WrittenPresence(q, c.window, NetWmStateHidden, HiddenWrite(SwitchAction(c, s, cur, v)), w, b);
    if j == |cs| - 1 {
      SwitchSparesOthers(p, front, s, cur, v, w, b);
    } else {
      assert front[j] == cs[j];
      assert Distinct(front);
      SwitchHidden(p, front, s, cur, v, j, b);
    }
  }

  /** The body of `switch_vdesk`'s loop for one client: show, conceal or keep it. */
  method SwitchClient(m: Manager, c: Client, s: nat, cur: int, v: int)
    modifies m`log, m`props
    ensures var a := SwitchAction(c, s, cur, v);
      && m.log == old(m.log) + VisibilityRequests(c, a)
      && m.props == Written(old(m.props), c.window, NetWmStateHidden, HiddenWrite(a))
  {
    var a := SwitchAction(c, s, cur, v);
    if a == Show {
      Unhide(m, c);
    } else if a == Conceal {
      Hide(m, c);
    }
  }

  /**
   * `switch_vdesk(s, v)`: a no-op answering the current desktop when `v` is
   * current or beyond `DESKTOPS`; otherwise every client is shown, hidden or
   * kept as `SwitchAction` says, head first, then the screen's desktop
   * becomes `v` and is published as `_NET_CURRENT_DESKTOP` on its root.
   */
  method SwitchVdesk(m: Manager, s: nat, v: Byte) returns (r: Byte)
    requires m.Valid() && s < |m.screens|
    modifies m`log, m`props, m`screens
    ensures var cur := old(m.screens[s].vdesk);
      (v == cur || v > MaxDesktops) ==>
        r == cur && m.log == old(m.log) && m.props == old(m.props) && m.screens == old(m.screens)
    ensures var cur := old(m.screens[s].vdesk);
      var root := old(m.screens[s].root);
      !(v == cur || v > MaxDesktops) ==>
        && r == v
        && m.screens == old(m.screens)[s := old(m.screens[s]).(vdesk := v)]
        && m.log == old(m.log) + SwitchLog(m.clients, s, cur, v)
        && m.props == SwitchProps(old(m.props), m.clients, s, cur, v)[(root, NetCurrentDesktop) := [v as int]]
    ensures m.Valid()
  {
    var cur := m.screens[s].vdesk;
    if v == cur || v > MaxDesktops {
      return cur;
    }
    SwitchClients(m, s, cur, v);
    SetScreenDesktop(m, s, v);
    m.props := m.props[(m.screens[s].root, NetCurrentDesktop) := [v as int]];
    r := v;
  }

  /** The loop of `switch_vdesk` over the clients, head first. */
  method SwitchClients(m: Manager, s: nat, cur: int, v: int)
    modifies m`log, m`props
    ensures m.log == old(m.log) + SwitchLog(m.clients, s, cur, v)
    ensures m.props == SwitchProps(old(m.props), m.clients, s, cur, v)
  {
    var k := 0;
    while k < |m.clients|
      invariant 0 <= k <= |m.clients|
      invariant m.log == old(m.log) + SwitchLog(m.clients[..k], s, cur, v)
      invariant m.props == SwitchProps(old(m.props), m.clients[..k], s, cur, v)
    {
      assert m.clients[..k + 1][..k] == m.clients[..k];
      SwitchClient(m, m.clients[k], s, cur, v);
      k := k + 1;
    }
    assert m.clients[..k] == m.clients;
  }
}
