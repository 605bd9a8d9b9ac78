/**
 * Creation of a managed client (new.c, built with JBWM_USE_EWMH): the record
 * is allocated and put at the head of the registry, its properties and
 * geometry are initialised, a frame is created and the window reparented into
 * it. The attributes and hints read from the server are parameters.
 */
module NewClient {
  import opened Protocol
  import opened ClientRecord
  import opened Mwm

  /** What `XGetWindowAttributes` reports about the new window. */
  datatype WindowAttributes = WindowAttributes(
    x: int, y: int, width: int, height: int, colormap: int, viewable: bool)

  /**
   * The desktop `wm_desktop` settles on, and the value it writes back: the
   * `_NET_WM_DESKTOP` property is adopted when present, non-empty and below
   * JBWM_MAX_DESKTOPS; a present but invalid property is overwritten with the
   * default; an absent one leaves the default and is not written.
   */
  function DesktopHint(p: Option<seq<int>>, vdesk: Byte): (r: (Byte, Option<seq<int>>))
    ensures p.None? ==> r == (vdesk, None)
    ensures p.Some? && |p.value| > 0 && 0 <= p.value[0] < MaxDesktops ==> r == (p.value[0], None)
    ensures p.Some? && !(|p.value| > 0 && 0 <= p.value[0] < MaxDesktops) ==> r == (vdesk, Some([vdesk as int]))
    ensures r.0 < MaxDesktops || r.0 == vdesk
  {
    match p
    case None => (vdesk, None)
    case Some(l) =>
      if |l| > 0 && 0 <= l[0] < MaxDesktops then (l[0], None) else (vdesk, Some([vdesk as int]))
  }

  /** The `_NET_WM_DESKTOP` property of `w` in the store. */
  function DesktopProp(props: map<(Window, Atom), seq<int>>, w: Window): Option<seq<int>> {
    if (w, NetWmDesktop) in props then Some(props[(w, NetWmDesktop)]) else None
  }

  /** `wm_desktop(d, w, vdesk)`: read the property, validate it, repair it when invalid. */
  method WmDesktop(m: Manager, w: Window, vdesk: Byte) returns (r: Byte)
    modifies m`props
    ensures var h := DesktopHint(DesktopProp(old(m.props), w), vdesk);
      && r == h.0
      && m.props == (if h.1.Some? then old(m.props)[(w, NetWmDesktop) := h.1.value] else old(m.props))
  {
    r := vdesk;
    if (w, NetWmDesktop) in m.props {
      var lprop := m.props[(w, NetWmDesktop)];
      if |lprop| > 0 && 0 <= lprop[0] < MaxDesktops {
        r := lprop[0];
      } else {
        m.props := m.props[(w, NetWmDesktop) := [vdesk as int]];
      }
    }
  }

  /** A desktop number a window asks for is kept exactly when it is a valid desktop. */
  lemma DesktopHintAdoptsValid(l: seq<int>, vdesk: Byte)
    requires |l| > 0
    ensures DesktopHint(Some(l), vdesk).0 == (if 0 <= l[0] < MaxDesktops then l[0] else vdesk)
    ensures DesktopHint(Some(l), vdesk).1.None? <==> 0 <= l[0] < MaxDesktops
  {
  }

  /** After a repair the property holds a valid desktop whenever the default was one, so a second read adopts it. */
  lemma DesktopRepairIsStable(p: Option<seq<int>>, vdesk: Byte)
    requires vdesk < MaxDesktops
    ensures var h := DesktopHint(p, vdesk);
      h.1.Some? ==> DesktopHint(h.1, vdesk) == (vdesk, None)
  {
  }

  /**
   * `_NET_FRAME_EXTENTS` (left, right, top, bottom): the border on each side,
   * and the title bar's height (TDIM, the font height) on top unless the
   * client has no title bar.
   */
  function FrameExtents(border: Bit, noTitleBar: bool): (r: seq<int>)
    ensures |r| == 4 && r[0] == r[1] == r[3] == border
    ensures r[2] - border == (if noTitleBar then 0 else TDim)
  {
    [border as int, border as int, border + (if noTitleBar then 0 else TDim), border as int]
  }

  /**
   * `center`: a window placed at the origin is centred on its screen, with
   * both halvings done by `>> 1` (floor); any other position is kept.
   */
  function Center(s: SizeHints, sw: int, sh: int): (r: SizeHints)
    ensures s.x != 0 || s.y != 0 ==> r == s
    ensures r == s.(x := r.x, y := r.y)
  {
    if s.x != 0 || s.y != 0 then s
    else s.(x := sw / 2 - s.width / 2, y := sh / 2 - s.height / 2)
  }

  /**
   * The screen size and the window size are halved separately, each rounded
   * down as `>> 1` rounds a non-negative value; the difference is never
   * halved as a whole. A window 3 wide on a screen of width 0 lands at -1.
   */
  lemma CenterHalvesSeparately(s: SizeHints, sw: nat, sh: nat)
    requires s.x == 0 && s.y == 0 && s.width >= 0 && s.height >= 0
    ensures var r := Center(s, sw, sh);
      && 2 * r.x == (sw - sw % 2) - (s.width - s.width % 2)
      && 2 * r.y == (sh - sh % 2) - (s.height - s.height % 2)
    ensures s.width == 3 ==> Center(s, 0, sh).x == -1
  {
  }

  /** A centred window's midpoint is the screen's midpoint to within half a pixel on each axis. */
  lemma CenterIsCentred(s: SizeHints, sw: int, sh: int)
    requires s.x == 0 && s.y == 0
    ensures var r := Center(s, sw, sh);
      -1 <= 2 * r.x + r.width - sw <= 1 && -1 <= 2 * r.y + r.height - sh <= 1
  {
  }

  /** The record `jbwm_new_client` builds for `w` on screen `s`, framed by `frame`. */
  function Created(w: Window, s: nat, frame: Window, screenVdesk: Byte, desktop: Option<seq<int>>,
                   attrs: WindowAttributes, hints: Option<MwmHints>): (c: Client)
    ensures c.ignoreUnmap == (if attrs.viewable then 1 else 0)
    ensures c.window == w && c.parent == frame && c.screen == s
    ensures c.vdesk == ToVDesk(DesktopHint(desktop, ToVDesk(screenVdesk)).0)
    ensures c.size.x == attrs.x && c.size.y == attrs.y && c.size.width == attrs.width && c.size.height == attrs.height
    ensures hints.None? ==> c.opt == {} && c.border == 1
  {
    var c0 := NewRecord(w, s);
    var (opt, border) := HandleMwmHints(hints, c0.opt, c0.border);
    var vdesk := ToVDesk(DesktopHint(desktop, ToVDesk(screenVdesk)).0);
    var size := c0.size.(x := attrs.x, y := attrs.y, width := attrs.width, height := attrs.height);
    c0.(opt := opt, border := border, vdesk := vdesk, cmap := attrs.colormap,
        size := size, ignoreUnmap := if attrs.viewable then 1 else 0, parent := frame)
  }

  /** The requests of a creation, in the order the source issues them. */
  function CreationRequests(w: Window, root: Window, frame: Window, c: Client, sw: int, sh: int): (r: seq<Request>)
    ensures |r| == 10 && r[0] == SelectInput(w)
  {
    var g := Center(c.size, sw, sh);
    [SelectInput(w), GrabWindowKeys(w), SetAllowedActions(w),
     QueryShape(w), CreateFrame(frame, root, g.x, g.y, g.width, g.height, c.border),
     AddToSaveSet(w), ReparentWindow(w, frame, 0, 0), MapWindow(w),
     RestoreClient(w), UpdateTitleBar(w)]
  }

  /**
   * The frame is created once, centred when the window sat at the origin,
   * before the window is reparented into it; the window is mapped right after.
   */
  lemma CreationOrder(w: Window, root: Window, frame: Window, c: Client, sw: int, sh: int)
    ensures var r := CreationRequests(w, root, frame, c, sw, sh);
      var g := Center(c.size, sw, sh);
      && r[4] == CreateFrame(frame, root, g.x, g.y, g.width, g.height, c.border)
      && (forall i :: 0 <= i < |r| && r[i].CreateFrame? ==> i == 4)
      && r[6] == ReparentWindow(w, frame, 0, 0) && r[7] == MapWindow(w)
  {
  }

  /**
   * `init_properties(d, c)`: apply the Motif hints, start from the screen's
   * desktop, and let `wm_desktop` settle the desktop.
   */
  method InitProperties(m: Manager, c: Client, hints: Option<MwmHints>) returns (r: Client)
    requires c.screen < |m.screens|
    modifies m`props
    ensures var mwm := HandleMwmHints(hints, c.opt, c.border);
      var h := DesktopHint(DesktopProp(old(m.props), c.window), ToVDesk(m.screens[c.screen].vdesk));
      && r == c.(opt := mwm.0, border := mwm.1, vdesk := ToVDesk(h.0))
      && m.props == (if h.1.Some? then old(m.props)[(c.window, NetWmDesktop) := h.1.value] else old(m.props))
  {
    var mwm := HandleMwmHints(hints, c.opt, c.border);
    r := c.(opt := mwm.0, border := mwm.1);
    r := r.(vdesk := ToVDesk(m.screens[c.screen].vdesk));
    var desk := WmDesktop(m, r.window, r.vdesk);
    r := r.(vdesk := ToVDesk(desk));
  }

  /**
   * `init_geometry(d, c)`: take the geometry and colormap `get_viewable`
   * reads, count one unmap to ignore when the window is viewable, and centre
   * a window placed at the origin on its screen.
   */
  method InitGeometry(c: Client, attrs: WindowAttributes, sw: int, sh: int) returns (r: Client)
    ensures var g := c.size.(x := attrs.x, y := attrs.y, width := attrs.width, height := attrs.height);
      r == c.(cmap := attrs.colormap, size := Center(g, sw, sh),
              ignoreUnmap := if attrs.viewable then ToIgnoreCount(c.ignoreUnmap + 1) else c.ignoreUnmap)
  {
    r := c.(cmap := attrs.colormap, size := c.size.(x := attrs.x, y := attrs.y, width := attrs.width, height := attrs.height));
    if attrs.viewable {
      r := r.(ignoreUnmap := ToIgnoreCount(r.ignoreUnmap + 1));
    }
    r := r.(size := Center(r.size, sw, sh));
  }

  /**
   * `jbwm_new_client(d, s, w)`: allocate the record (border 1, all options
   * off) and make it the head; select input and grab keys; apply Motif hints
   * and the desktop hint; read the geometry, count the unmap the reparent will
   * cause when the window is already viewable, centre it; create the frame
   * `frame` and reparent; publish the frame extents; restore; draw the title
   * bar. There is no duplicate check here: the caller guarantees `w` is new.
   */
  method NewClientOn(m: Manager, s: nat, w: Window, frame: Window,
                     attrs: WindowAttributes, hints: Option<MwmHints>)
    requires m.Valid() && s < |m.screens|
    requires Unused(m.clients, w) && Unused(m.clients, frame) && w != frame
    modifies m`clients, m`log, m`props
    ensures m.Valid()
    ensures var c := Created(w, s, frame, old(m.screens[s].vdesk), DesktopProp(old(m.props), w), attrs, hints);
      var sc := old(m.screens[s]);
      var cc := c.(size := Center(c.size, sc.width, sc.height));
      && m.clients == [cc] + old(m.clients)
      && m.log == old(m.log) + CreationRequests(w, sc.root, frame, c, sc.width, sc.height)
    ensures var h := DesktopHint(DesktopProp(old(m.props), w), ToVDesk(old(m.screens[s].vdesk)));
      var props1 := if h.1.Some? then old(m.props)[(w, NetWmDesktop) := h.1.value] else old(m.props);
      m.props == props1[(w, NetFrameExtents) := FrameExtents(m.clients[0].border, NoTitleBar in m.clients[0].opt)]
  {
    ghost var created := Created(w, s, frame, m.screens[s].vdesk, DesktopProp(m.props, w), attrs, hints);
    // get_JBWMClient, jbwm_set_head_client
    var c := NewRecord(w, s);
    // do_grabs
    m.log := m.log + [SelectInput(w), GrabWindowKeys(w), SetAllowedActions(w)];
    c := InitProperties(m, c, hints);
    var sc := m.screens[s];
    c := InitGeometry(c, attrs, sc.width, sc.height);
    assert c.(parent := frame) == created.(size := c.size);
    FrameAndLink(m, c, frame, sc.root);
  }

  /**
   * The rest of `jbwm_new_client` for the prepared record `c`: create the
   * frame `frame` on the root `root` and reparent into it, publish the frame
   * extents, restore and draw the title bar; the record, now framed, is the
   * head of the registry.
   */
  method FrameAndLink(m: Manager, c: Client, frame: Window, root: Window)
    requires m.Valid() && c.screen < |m.screens| && c.window != frame
    requires Unused(m.clients, c.window) && Unused(m.clients, frame)
    modifies m`clients, m`log, m`props
    ensures m.Valid()
    ensures m.clients == [c.(parent := frame)] + old(m.clients)
    ensures var w := c.window;
      m.log == old(m.log) + [QueryShape(w), CreateFrame(frame, root, c.size.x, c.size.y, c.size.width, c.size.height, c.border),
                             AddToSaveSet(w), ReparentWindow(w, frame, 0, 0), MapWindow(w), RestoreClient(w), UpdateTitleBar(w)]
    ensures m.props == old(m.props)[(c.window, NetFrameExtents) := FrameExtents(c.border, NoTitleBar in c.opt)]
  {
    var w := c.window;
    // reparent
    m.log := m.log + [QueryShape(w), CreateFrame(frame, root, c.size.x, c.size.y, c.size.width, c.size.height, c.border)];
    var framed := c.(parent := frame);
    m.log := m.log + [AddToSaveSet(w), ReparentWindow(w, frame, 0, 0), MapWindow(w)];
    // set_frame_extents, jbwm_restore_client, jbwm_update_title_bar
    m.props := m.props[(w, NetFrameExtents) := FrameExtents(c.border, NoTitleBar in c.opt)];
    m.log := m.log + [RestoreClient(w), UpdateTitleBar(w)];
    SetHead(m, framed);
  }

  /** Link a client whose handles are unused in at the head of the registry. */
  method SetHead(m: Manager, c: Client)
    requires m.Valid() && c.screen < |m.screens| && c.window != c.parent
    requires Unused(m.clients, c.window) && Unused(m.clients, c.parent)
    modifies m`clients
    ensures m.clients == [c] + old(m.clients) && m.Valid()
  {
    PrependKeepsDistinct(m.clients, c);
    m.clients := [c] + m.clients;
  }

  /** The new client is found by its window and by its frame, and nothing registered before is lost or reordered. */
  lemma NewClientIsRegistered(cs: seq<Client>, c: Client)
    requires Unused(cs, c.window) && Unused(cs, c.parent)
    ensures IndexOf([c] + cs, c.window) == Some(0) && IndexOf([c] + cs, c.parent) == Some(0)
    ensures ([c] + cs)[1..] == cs
  {
  }
}
