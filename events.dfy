/**
 * The event loop of events.c: one handler per X event the manager selects,
 * and the deferred removal of clients whose windows went away. This file
 * belongs to the revision whose screens are `ScreenInfo` records and whose
 * registry starts at `head_client`; it is modelled as built with USE_TBAR
 * (as button_event.c is) and without USE_CMAP and USE_SHAPE.
 *
 * Collaborators whose code is not part of this model are recorded as
 * requests: `make_new_client`, `select_client`, `send_wm_delete`, the key
 * handler and the server-side part of `remove_client`.
 */
module Events {
  import opened Protocol
  import opened ClientRecord
  import Screen
  import ButtonEvent
  import Util

  /** The root windows of the screens, in screen order. */
  function Roots(ss: seq<ScreenInfo>): (r: seq<Window>)
    ensures |r| == |ss|
    ensures forall i :: 0 <= i < |ss| ==> r[i] == ss[i].root
  {
    seq(|ss|, i requires 0 <= i < |ss| => ss[i].root)
  }

  /** Changing a screen's desktop does not change any root. */
  lemma RootsIgnoreDesktop(ss: seq<ScreenInfo>, s: nat, v: Byte)
    requires s < |ss|
    ensures Roots(ss[s := ss[s].(vdesk := v)]) == Roots(ss)
  {
    assert forall i :: 0 <= i < |ss| ==> Roots(ss[s := ss[s].(vdesk := v)])[i] == Roots(ss)[i];
  }

  /** The first screen whose root is `root`, as `find_screen` scans them; None when there is none. */
  function ScreenIndex(roots: seq<Window>, root: Window): (r: Option<nat>)
    ensures r.Some? ==> r.value < |roots| && roots[r.value] == root
    ensures r.Some? ==> forall j :: 0 <= j < r.value ==> roots[j] != root
    ensures r.None? <==> forall j :: 0 <= j < |roots| ==> roots[j] != root
  {
    if roots == [] then None
    else if roots[0] == root then Some(0)
    else match ScreenIndex(roots[1..], root)
      case None => None
      case Some(k) => Some(k + 1)
  }

  /**
   * `find_screen(root)`: a scan of the screens with an 8-bit counter. With 256
   * screens or more the counter would wrap before reaching the count and the
   * loop would never end, so fewer than 256 screens are required.
   */
  method FindScreen(m: Manager, root: Window) returns (r: Option<nat>)
    requires |m.screens| < 256
    ensures r == ScreenIndex(Roots(m.screens), root)
  {
    var i: Byte := 0;
    while i < |m.screens|
      invariant 0 <= i <= |m.screens|
      invariant forall j :: 0 <= j < i ==> m.screens[j].root != root
    {
      if m.screens[i].root == root {
        ScreenIndexFirst(Roots(m.screens), root, i);
        return Some(i as nat);
      }
      i := i + 1;
    }
    r := None;
  }

  lemma {:induction false} ScreenIndexFirst(roots: seq<Window>, root: Window, i: nat)
    requires i < |roots| && roots[i] == root
    requires forall j :: 0 <= j < i ==> roots[j] != root
    ensures ScreenIndex(roots, root) == Some(i)
  {
    if i > 0 {
      ScreenIndexFirst(roots[1..], root, i - 1);
    }
  }

  /**
   * The requests `handle_map_request` issues for window `w`, whose root the
   * server reports as `root`: none for a client being removed (a window that
   * is going away is never mapped again), `unhide` for any other client, and
   * `make_new_client` with the screen of `root` (None when that root is no
   * managed screen's) for an unknown window.
   */
  function MapRequests(cs: seq<Client>, roots: seq<Window>, w: Window, root: Window): (r: seq<Request>)
    ensures |r| <= 1
    ensures IndexOf(cs, w).None? ==> r == [MakeNewClient(w, ScreenIndex(roots, root))]
    ensures var i := IndexOf(cs, w);
      i.Some? ==> (r == [] <==> Remove in cs[i.value].opt)
    ensures forall x :: UnhideClient(x) in r <==>
      IndexOf(cs, w).Some? && x == cs[IndexOf(cs, w).value].window && Remove !in cs[IndexOf(cs, w).value].opt
  {
    match IndexOf(cs, w)
    case None => [MakeNewClient(w, ScreenIndex(roots, root))]
    case Some(i) => if Remove in cs[i].opt then [] else [UnhideClient(cs[i].window)]
  }

  /** `handle_map_request(e)`. */
  method HandleMapRequest(m: Manager, w: Window, root: Window)
    requires |m.screens| < 256
    modifies m`log
    ensures m.log == old(m.log) + MapRequests(m.clients, Roots(m.screens), w, root)
  {
    var i := FindClient(m, w);
    if i.Some? {
      var c := m.clients[i.value];
      if Remove in c.opt {
        return;
      }
      m.log := m.log + [UnhideClient(c.window)];
    } else {
      var s := FindScreen(m, root);
      m.log := m.log + [MakeNewClient(w, s)];
    }
  }

  /** The clients `cleanup` keeps: those not flagged for removal, in registry order. */
  function Kept(cs: seq<Client>): (r: seq<Client>)
    ensures |r| <= |cs|
  {
    if cs == [] then []
    else
      var c := cs[|cs| - 1];
      Kept(cs[..|cs| - 1]) + (if Remove in c.opt then [] else [c])
  }

  /** The `remove_client` calls of `cleanup`, head first. */
  function RemovalLog(cs: seq<Client>): (r: seq<Request>)
    ensures |r| <= |cs|
    ensures forall i :: 0 <= i < |r| ==> r[i].RemoveClient?
  {
    if cs == [] then []
    else
      var c := cs[|cs| - 1];
      RemovalLog(cs[..|cs| - 1]) + (if Remove in c.opt then [RemoveClient(c.window)] else [])
  }

  /** Dropping one client keeps the registry invariant. */
  lemma RemoveKeepsDistinct(cs: seq<Client>, j: nat)
    requires Distinct(cs) && j < |cs|
    ensures Distinct(cs[..j] + cs[j + 1..])
  {
    var ds := cs[..j] + cs[j + 1..];
    assert forall i :: 0 <= i < |ds| ==> ds[i] == cs[if i < j then i else i + 1];
  }

  /**
   * `remove_client(c)` for the client at `j`, whose code is not part of this
   * model: the client is unlinked from the registry and the rest of its
   * teardown is recorded as a request.
   */
  method RemoveAt(m: Manager, j: nat)
    requires m.Valid() && j < |m.clients|
    modifies m`clients, m`log
    ensures m.clients == old(m.clients)[..j] + old(m.clients)[j + 1..]
    ensures m.log == old(m.log) + [RemoveClient(old(m.clients[j].window))]
    ensures m.Valid()
  {
    var c := m.clients[j];
    RemoveKeepsDistinct(m.clients, j);
    m.clients := m.clients[..j] + m.clients[j + 1..];
    m.log := m.log + [RemoveClient(c.window)];
  }

  /** Extending the walked prefix by one node. */
  lemma CleanupStep(cs: seq<Client>, k: nat)
    requires k < |cs|
    ensures Kept(cs[..k + 1]) == Kept(cs[..k]) + (if Remove in cs[k].opt then [] else [cs[k]])
    ensures RemovalLog(cs[..k + 1]) == RemovalLog(cs[..k]) + (if Remove in cs[k].opt then [RemoveClient(cs[k].window)] else [])
  {
    assert cs[..k + 1][..k] == cs[..k];
  }

  /**
   * The body of `cleanup`'s loop for the node `cs[k]` of the registry as it
   * was, which sits at position `j` of the registry as it is now.
   */
  method CleanupNode(m: Manager, cs: seq<Client>, k: nat, j: nat, ghost log0: seq<Request>) returns (j': nat)
    requires m.Valid() && k < |cs| && j == |Kept(cs[..k])|
    requires m.clients == Kept(cs[..k]) + cs[k..]
    requires m.log == log0 + RemovalLog(cs[..k])
    modifies m`clients, m`log
    ensures m.Valid() && j' == |Kept(cs[..k + 1])|
    ensures m.clients == Kept(cs[..k + 1]) + cs[k + 1..]
    ensures m.log == log0 + RemovalLog(cs[..k + 1])
  {
    CleanupStep(cs, k);
    Util.AppendAssoc(log0, RemovalLog(cs[..k]), if Remove in cs[k].opt then [RemoveClient(cs[k].window)] else []);
    assert m.clients[j] == cs[k];
    assert cs[k..] == [cs[k]] + cs[k + 1..];
    if Remove in m.clients[j].opt {
      RemoveAt(m, j);
      assert m.clients == Kept(cs[..k]) + cs[k + 1..];
      j' := j;
    } else {
      j' := j + 1;
    }
  }

  /**
   * `cleanup()`: clear the flag, then remove every client flagged for
   * removal.
   */
  method Cleanup(m: Manager)
    requires m.Valid()
    modifies m`needCleanup, m`clients, m`log
    ensures m.Valid() && !m.needCleanup
    ensures m.clients == Kept(old(m.clients))
    ensures m.log == old(m.log) + RemovalLog(old(m.clients))
  {
    ClearCleanup(m);
    RemoveFlagged(m);
  }

  /**
   * The loop of `cleanup`: walk the registry from the head, reading each
   * node's successor before the node may be removed, and remove the node
   * when it is flagged.
   */
  method RemoveFlagged(m: Manager)
    requires m.Valid()
    modifies m`clients, m`log
    ensures m.Valid()
    ensures m.clients == Kept(old(m.clients))
    ensures m.log == old(m.log) + RemovalLog(old(m.clients))
  {
    ghost var log0 := m.log;
    var cs := m.clients;
    var k, j := 0, 0;
    WalkBounds(cs);
    while k < |cs|
      invariant 0 <= k <= |cs| && m.Valid() && j == |Kept(cs[..k])|
      invariant m.clients == Kept(cs[..k]) + cs[k..]
      invariant m.log == log0 + RemovalLog(cs[..k])
    {
      j := CleanupNode(m, cs, k, j, log0);
      k := k + 1;
    }
    WalkEnd(cs, k);
  }

  /** `jbwm.need_cleanup = 0`. */
  method ClearCleanup(m: Manager)
    requires m.Valid()
    modifies m`needCleanup
    ensures !m.needCleanup && m.Valid()
  {
    m.needCleanup := false;
  }

  /** Before the walk nothing is kept or removed yet. */
  lemma WalkBounds(cs: seq<Client>)
    ensures Kept(cs[..0]) + cs[0..] == cs && RemovalLog(cs[..0]) == []
  {
    assert cs[..0] == [] && cs[0..] == cs;
  }

  /** After the walk, the walked prefix is the whole registry. */
  lemma WalkEnd(cs: seq<Client>, k: nat)
    requires k == |cs|
    ensures Kept(cs[..k]) + cs[k..] == Kept(cs) && RemovalLog(cs[..k]) == RemovalLog(cs)
  {
    assert cs[..k] == cs && cs[k..] == [];
  }

  /** A client survives the cleanup exactly when it is registered and not flagged. */
  lemma {:induction false} KeptExactly(cs: seq<Client>, c: Client)
    ensures c in Kept(cs) <==> c in cs && Remove !in c.opt
  {
    if cs != [] {
      var front := cs[..|cs| - 1];
      KeptExactly(front, c);
      assert cs == front + [cs[|cs| - 1]];
    }
  }

  /** A window's client is removed exactly when one of the clients carrying it is flagged. */
  lemma {:induction false} RemovedExactly(cs: seq<Client>, w: Window)
    ensures RemoveClient(w) in RemovalLog(cs) <==>
      exists i :: 0 <= i < |cs| && cs[i].window == w && Remove in cs[i].opt
  {
    if cs != [] {
      var front := cs[..|cs| - 1];
      RemovedExactly(front, w);
      if exists i :: 0 <= i < |cs| && cs[i].window == w && Remove in cs[i].opt {
        var i :| 0 <= i < |cs| && cs[i].window == w && Remove in cs[i].opt;
        if i < |cs| - 1 {
          assert front[i] == cs[i];
        }
      }
    }
  }

  /** No kept client is flagged. */
  lemma {:induction false} KeptUnflagged(cs: seq<Client>)
    ensures forall i :: 0 <= i < |Kept(cs)| ==> Remove !in Kept(cs)[i].opt
  {
    if cs != [] {
      KeptUnflagged(cs[..|cs| - 1]);
    }
  }

  /** Every client is either kept or removed, never both. */
  lemma {:induction false} KeptOrRemoved(cs: seq<Client>)
    ensures |Kept(cs)| + |RemovalLog(cs)| == |cs|
  {
    if cs != [] {
      KeptOrRemoved(cs[..|cs| - 1]);
    }
  }

  /** With nothing flagged, a cleanup leaves the registry as it is and removes nothing. */
  lemma {:induction false} NothingFlaggedNothingRemoved(cs: seq<Client>)
    requires forall i :: 0 <= i < |cs| ==> Remove !in cs[i].opt
    ensures Kept(cs) == cs && RemovalLog(cs) == []
  {
    if cs != [] {
      var front := cs[..|cs| - 1];
      NothingFlaggedNothingRemoved(front);
      assert cs == front + [cs[|cs| - 1]];
    }
  }

  /**
   * One UnmapNotify for client `c`: with no unmap left to ignore the client
   * is flagged for removal (the flag is the second component); otherwise one
   * fewer unmap remains to be ignored.
   */
  function Unmapped(c: Client): (r: (Client, bool))
    ensures r.1 <==> c.ignoreUnmap < 1
    ensures r.1 ==> r.0 == c.(opt := c.opt + {Remove})
    ensures !r.1 ==> r.0 == c.(ignoreUnmap := c.ignoreUnmap - 1)
  {
    if c.ignoreUnmap < 1 then (c.(opt := c.opt + {Remove}), true)
    else (c.(ignoreUnmap := c.ignoreUnmap - 1), false)
  }

  /** The record after `n` UnmapNotify events. */
  function UnmappedTimes(c: Client, n: nat): Client
    decreases n
  {
    if n == 0 then c else UnmappedTimes(Unmapped(c).0, n - 1)
  }

  /**
   * A client that expects `n >= 0` unmaps of its own making (the one caused
   * by reparenting an already viewable window) survives exactly those `n`:
   * they leave it unflagged with nothing more to ignore, and the next one
   * flags it.
   */
  lemma {:induction false} IgnoredUnmapsThenRemoved(c: Client)
    requires c.ignoreUnmap >= 0 && Remove !in c.opt
    ensures var d := UnmappedTimes(c, c.ignoreUnmap);
      d == c.(ignoreUnmap := 0) && Unmapped(d).1
    decreases c.ignoreUnmap
  {
    if c.ignoreUnmap > 0 {
      var c1 := Unmapped(c).0;
      IgnoredUnmapsThenRemoved(c1);
      assert c1.(ignoreUnmap := 0) == c.(ignoreUnmap := 0);
    }
  }

  /** Every flagged client is accounted for by the cleanup flag. */
  ghost predicate Pending(cs: seq<Client>, needCleanup: bool) {
    forall i :: 0 <= i < |cs| && Remove in cs[i].opt ==> needCleanup
  }

  /**
   * `handle_unmap_event(e)`: for a client the window names, either flag it
   * for removal and request a cleanup, or count down one ignored unmap.
   */
  method HandleUnmap(m: Manager, w: Window)
    requires m.Valid()
    modifies m`clients, m`needCleanup
    ensures m.Valid()
    ensures IndexOf(old(m.clients), w).None? ==>
      m.clients == old(m.clients) && m.needCleanup == old(m.needCleanup)
    ensures var i := IndexOf(old(m.clients), w);
      i.Some? ==>
        var u := Unmapped(old(m.clients[i.value]));
        m.clients == old(m.clients)[i.value := u.0] && m.needCleanup == (old(m.needCleanup) || u.1)
    ensures Pending(old(m.clients), old(m.needCleanup)) ==> Pending(m.clients, m.needCleanup)
  {
    var i := FindClient(m, w);
    if i.Some? {
      var c := m.clients[i.value];
      if c.ignoreUnmap < 1 {
        SetClient(m, i.value, c.(opt := c.opt + {Remove}));
        m.needCleanup := true;
      } else {
        SetClient(m, i.value, c.(ignoreUnmap := c.ignoreUnmap - 1));
      }
    }
  }

  /**
   * The requests `handle_property_change` issues for client `c` when property
   * `atom` changes: none for WM_HINTS, `_NET_WM_OPAQUE_REGION` and
   * `_NET_WM_USER_TIME`; a title-bar redraw for WM_NAME; `moveresize(c)` for
   * any other property.
   */
  function PropertyRequests(c: Client, atom: Atom): (r: seq<Request>)
    ensures r == [] <==> atom in {XaWmHints, NetWmOpaqueRegion, NetWmUserTime}
    ensures atom == XaWmName ==> r == [UpdateTitleBar(c.window)]
    ensures atom !in {XaWmHints, XaWmName, NetWmOpaqueRegion, NetWmUserTime} ==> r == [MoveResize(c.window)]
  {
    if atom == XaWmHints then []
    else if atom == XaWmName then [UpdateTitleBar(c.window)]
    else if atom == NetWmOpaqueRegion || atom == NetWmUserTime then []
    else [MoveResize(c.window)]
  }

  /** `handle_property_change(e)`: nothing for an unmanaged window. */
  method HandlePropertyChange(m: Manager, w: Window, atom: Atom)
    modifies m`log
    ensures var i := IndexOf(m.clients, w);
      m.log == old(m.log) + (if i.Some? then PropertyRequests(m.clients[i.value], atom) else [])
  {
    var i := FindClient(m, w);
    if i.Some? {
      m.log := m.log + PropertyRequests(m.clients[i.value], atom);
    }
  }

  /**
   * Whether `handle_enter_event` selects client `c` when the pointer enters
   * window `w`: always for a sticky client; otherwise only when `c` is on its
   * screen's current desktop and `w` is the application window, not the frame.
   */
  predicate EnterSelects(c: Client, screenDesktop: int, w: Window): (r: bool)
    ensures Sticky in c.opt ==> r
    ensures Sticky !in c.opt ==> (r <==> c.vdesk == screenDesktop && w == c.window)
  {
    Sticky in c.opt || (c.vdesk == screenDesktop && w == c.window)
  }

  /** Entering the frame of a non-sticky client, or a client of another desktop, selects nothing. */
  lemma EnterFrameOrHiddenIgnored(c: Client, screenDesktop: int)
    requires Sticky !in c.opt && c.window != c.parent
    ensures !EnterSelects(c, screenDesktop, c.parent)
    ensures c.vdesk != screenDesktop ==> !EnterSelects(c, screenDesktop, c.window)
  {
  }

  /** `handle_enter_event(e)`. */
  method HandleEnter(m: Manager, w: Window)
    requires m.Valid()
    modifies m`log
    ensures var i := IndexOf(m.clients, w);
      m.log == old(m.log) +
        (if i.Some? && EnterSelects(m.clients[i.value], m.screens[m.clients[i.value].screen].vdesk, w)
         then [SelectClient(m.clients[i.value].window)] else [])
  {
    var i := FindClient(m, w);
    if i.Some? {
      var c := m.clients[i.value];
      if Sticky !in c.opt {
        if c.vdesk != m.screens[c.screen].vdesk || w != c.window {
          return;
        }
      }
      m.log := m.log + [SelectClient(c.window)];
    }
  }

  /** The changes `jbwm_handle_configure_request` passes on: the request's own, with no border. */
  function ConfigureChanges(x: int, y: int, width: int, height: int, above: Window, detail: int): (r: WindowChanges)
    ensures r.borderWidth == 0 && r.sibling == above && r.stackMode == detail
    ensures r.x == x && r.y == y && r.width == width && r.height == height
  {
    WindowChanges(x, y, width, height, 0, above, detail)
  }

  /**
   * `jbwm_handle_configure_request(e)`: a window that is no client's is
   * configured as it asks, border excluded. For a client the sibling is
   * translated to its frame, but no request follows, so a managed window's
   * request has no effect.
   */
  method HandleConfigureRequest(m: Manager, w: Window, mask: int, x: int, y: int, width: int, height: int,
                                above: Window, detail: int)
    modifies m`log
    ensures IndexOf(m.clients, w).Some? ==> m.log == old(m.log)
    ensures IndexOf(m.clients, w).None? ==>
      m.log == old(m.log) + [ConfigureWindow(w, mask, ConfigureChanges(x, y, width, height, above, detail))]
  {
    var c := FindClient(m, w);
    var wc := ConfigureChanges(x, y, width, height, above, detail);
    if c.Some? {
      if Has(mask, CWStackMode) && Has(mask, CWSibling) {
        var s := FindClient(m, above);
        if s.Some? {
          wc := wc.(sibling := m.clients[s.value].parent);
        }
      }
    } else {
      m.log := m.log + [ConfigureWindow(w, mask, wc)];
    }
  }

  /** A client with its maximized (fullscreen) flag flipped, as `maximize` leaves it. */
  function Toggled(c: Client): (r: Client)
    ensures (Fullscreen in r.opt) != (Fullscreen in c.opt)
    ensures r.opt - {Fullscreen} == c.opt - {Fullscreen}
  {
    c.(opt := Assign(c.opt, Fullscreen, Fullscreen !in c.opt))
  }

  /** Maximizing twice restores the record. */
  lemma ToggledTwice(c: Client)
    ensures Toggled(Toggled(c)) == c
  {
    var o := Toggled(Toggled(c)).opt;
    assert forall f :: f in o <==> f in c.opt by {
      forall f
        ensures f in o <==> f in c.opt
      {
        if f != Fullscreen {
          assert f in o <==> f in o - {Fullscreen};
          assert f in c.opt <==> f in c.opt - {Fullscreen};
        }
      }
    }
  }

  /** Whether a `_NET_WM_STATE` message names the fullscreen state in either of its two state slots. */
  predicate NamesFullscreen(e: ClientMessage) {
    e.l1 == NetWmStateFullscreen || e.l2 == NetWmStateFullscreen
  }

  /**
   * The requests `handle_client_message` issues for a managed client `c`,
   * the pointer being on screen `s`: `_NET_ACTIVE_WINDOW` selects the client
   * when it is on that screen; `_NET_CLOSE_WINDOW` deletes it when the
   * source indication is 2 (direct user action); `_NET_WM_STATE` naming the
   * fullscreen state toggles maximization.
   */
  function MessageRequests(c: Client, e: ClientMessage, s: Option<nat>): (r: seq<Request>)
    ensures |r| <= 1
    ensures SelectClient(c.window) in r <==> e.messageType == NetActiveWindow && s == Some(c.screen)
    ensures SendWmDelete(c.window) in r <==> e.messageType == NetCloseWindow && e.l1 == 2
    ensures Maximize(c.window) in r <==> e.messageType == NetWmState && NamesFullscreen(e)
  {
    if e.messageType == NetActiveWindow then
      (if s == Some(c.screen) then [SelectClient(c.window)] else [])
    else if e.messageType == NetCloseWindow then
      (if e.l1 == 2 then [SendWmDelete(c.window)] else [])
    else if e.messageType == NetWmState && NamesFullscreen(e) then [Maximize(c.window)]
    else []
  }

  /** `handle_client_message` for the managed client at `i`, after the desktop message is ruled out. */
  method ManagedMessage(m: Manager, e: ClientMessage, s: Option<nat>, i: nat)
    requires m.Valid() && i < |m.clients|
    modifies m`clients, m`log
    ensures m.Valid()
    ensures m.log == old(m.log) + MessageRequests(old(m.clients[i]), e, s)
    ensures m.clients == if e.messageType == NetWmState && NamesFullscreen(e)
      then old(m.clients)[i := Toggled(old(m.clients[i]))] else old(m.clients)
  {
    var c := m.clients[i];
    if e.messageType == NetActiveWindow {
      if s == Some(c.screen) {
        m.log := m.log + [SelectClient(c.window)];
      }
      return;
    }
    if e.messageType == NetCloseWindow {
      if e.l1 == 2 {
        m.log := m.log + [SendWmDelete(c.window)];
      }
      return;
    }
    if e.messageType == NetWmState {
      var full := false;
      var k := 1;
      while k <= 2
        invariant 1 <= k <= 3
        invariant full <==> (k > 1 && e.l1 == NetWmStateFullscreen) || (k > 2 && e.l2 == NetWmStateFullscreen)
      {
        if (if k == 1 then e.l1 else e.l2) == NetWmStateFullscreen {
          full := true;
        }
        k := k + 1;
      }
      if full {
        ToggleMaximize(m, i);
      }
    }
  }

  /** A `_NET_WM_DESKTOP` message needs the pointer on a managed screen: `find_screen`'s result is used unchecked. */
  predicate PointerOnScreen(roots: seq<Window>, e: ClientMessage, pointerRoot: Window) {
    e.messageType == NetWmDesktop ==> ScreenIndex(roots, pointerRoot).Some?
  }

  /** Whether a client message flips the maximized flag of the client it names. */
  predicate Maximizes(e: ClientMessage) {
    e.messageType == NetWmState && NamesFullscreen(e)
  }

  /**
   * What `handle_client_message(e)` does to the registry `cs`, and the
   * requests it issues, the pointer being on the screen whose root is
   * `pointerRoot` (what `XQueryPointer` reports): `_NET_WM_DESKTOP` asks
   * `switch_vdesk` to move that screen to desktop `data.l[0]`, whatever window
   * the message names; any other message about a window that is no client's
   * does nothing; for a client, the requests are MessageRequests', and
   * `maximize` both flips the client's maximized flag and is reported.
   */
  function MessageOutcome(cs: seq<Client>, roots: seq<Window>, e: ClientMessage, pointerRoot: Window): (r: (seq<Client>, seq<Request>))
    requires PointerOnScreen(roots, e, pointerRoot)
    ensures e.messageType == NetWmDesktop ==> r == (cs, [SwitchVdesk(ScreenIndex(roots, pointerRoot).value, e.l0)])
    ensures e.messageType != NetWmDesktop && IndexOf(cs, e.window).None? ==> r == (cs, [])
    ensures var i := IndexOf(cs, e.window);
      e.messageType != NetWmDesktop && i.Some? ==>
        && r.1 == MessageRequests(cs[i.value], e, ScreenIndex(roots, pointerRoot))
        && (r.0 != cs <==> Maximize(cs[i.value].window) in r.1)
        && (Maximizes(e) ==> r.0 == cs[i.value := Toggled(cs[i.value])])
    ensures SameHandles(cs, r.0) && SameRemovals(cs, r.0)
  {
    if e.messageType == NetWmDesktop then (cs, [SwitchVdesk(ScreenIndex(roots, pointerRoot).value, e.l0)])
    else match IndexOf(cs, e.window)
      case None => (cs, [])
      case Some(i) =>
        var c := cs[i];
        ToggledKeepsOthers(c);
        (if Maximizes(e) then cs[i := Toggled(c)] else cs, MessageRequests(c, e, ScreenIndex(roots, pointerRoot)))
  }

  /** Flipping the maximized flag changes no other option and no handle. */
  lemma ToggledKeepsOthers(c: Client)
    ensures Toggled(c) != c
    ensures Toggled(c).window == c.window && Toggled(c).parent == c.parent && Toggled(c).screen == c.screen
    ensures Remove in Toggled(c).opt <==> Remove in c.opt
  {
    assert Remove in Toggled(c).opt <==> Remove in Toggled(c).opt - {Fullscreen};
  }

  /** `handle_client_message(e)`. */
  method HandleClientMessage(m: Manager, e: ClientMessage, pointerRoot: Window)
    requires m.Valid() && |m.screens| < 256 && PointerOnScreen(Roots(m.screens), e, pointerRoot)
    modifies m`clients, m`log
    ensures m.Valid()
    ensures var r := MessageOutcome(old(m.clients), Roots(m.screens), e, pointerRoot);
      m.clients == r.0 && m.log == old(m.log) + r.1
  {
    var s := FindScreen(m, pointerRoot);
    if e.messageType == NetWmDesktop {
      m.log := m.log + [SwitchVdesk(s.value, e.l0)];
      return;
    }
    var i := FindClient(m, e.window);
    if i.None? {
      return;
    }
    ManagedMessage(m, e, s, i.value);
  }

  /** The events the main loop dispatches, with the fields their handlers read. */
  datatype Event =
    | EnterNotify(window: Window)
    | UnmapNotify(window: Window)
    | PropertyNotify(window: Window, atom: Atom)
      /** `root` is the window's root as `XGetWindowAttributes` reports it. */
    | MapRequest(window: Window, root: Window)
    | KeyPress(window: Window)
    | ButtonPress(window: Window, button: int, x: int, y: int)
    | ConfigureRequest(window: Window, mask: int, x: int, y: int, width: int, height: int, above: Window, detail: int)
      /** `pointerRoot` is the root the pointer is on, as `XQueryPointer` reports it. */
    | Message(message: ClientMessage, pointerRoot: Window)
      /** Any event the loop does not handle. */
    | Other

  /** Whether the main loop can service `ev` on screens with these roots. */
  predicate Serviceable(roots: seq<Window>, ev: Event) {
    ev.Message? ==> PointerOnScreen(roots, ev.message, ev.pointerRoot)
  }

  /** The client `find_client(w)` returns, as a value. */
  function ClientFor(cs: seq<Client>, w: Window): (r: Option<Client>)
    ensures r.Some? <==> IndexOf(cs, w).Some?
    ensures r.Some? ==> Matches(r.value, w) && r.value in cs
  {
    match IndexOf(cs, w)
    case None => None
    case Some(i) => Some(cs[i])
  }

  /** Every client's screen is one of `screens`. */
  predicate OnScreens(cs: seq<Client>, screens: seq<ScreenInfo>) {
    forall i :: 0 <= i < |cs| ==> cs[i].screen < |screens|
  }

  /** Two registries hold the same clients, in the same order, by handles and screen. */
  predicate SameHandles(cs: seq<Client>, ds: seq<Client>) {
    && |cs| == |ds|
    && forall i :: 0 <= i < |cs| ==>
         ds[i].window == cs[i].window && ds[i].parent == cs[i].parent && ds[i].screen == cs[i].screen
  }

  /** Two registries of the same length flag the same clients for removal. */
  predicate SameRemovals(cs: seq<Client>, ds: seq<Client>) {
    |cs| == |ds| && forall i :: 0 <= i < |cs| ==> (Remove in ds[i].opt <==> Remove in cs[i].opt)
  }

  /** The part of the manager the event handlers and `cleanup` change. */
  datatype LoopState = LoopState(clients: seq<Client>, needCleanup: bool, log: seq<Request>)

  /** The loop state of manager `m`. */
  function Snapshot(m: Manager): (r: LoopState)
    reads m`clients, m`needCleanup, m`log
    ensures r.clients == m.clients && r.needCleanup == m.needCleanup && r.log == m.log
  {
    LoopState(m.clients, m.needCleanup, m.log)
  }

  /** The `switch` of `main_event_loop` on loop state `st`, over the screens `screens`: each event runs its handler. */
  function Dispatched(st: LoopState, screens: seq<ScreenInfo>, ev: Event): LoopState
    requires OnScreens(st.clients, screens) && Serviceable(Roots(screens), ev)
  {
    var cs := st.clients;
    match ev
    case EnterNotify(w) =>
      st.(log := st.log +
        (match IndexOf(cs, w)
         case None => []
         case Some(i) =>
           if EnterSelects(cs[i], screens[cs[i].screen].vdesk, w) then [SelectClient(cs[i].window)] else []))
    case UnmapNotify(w) =>
      (match IndexOf(cs, w)
       case None => st
       case Some(i) =>
         var u := Unmapped(cs[i]);
         st.(clients := cs[i := u.0], needCleanup := st.needCleanup || u.1))
    case PropertyNotify(w, a) =>
      st.(log := st.log + (match IndexOf(cs, w) case None => [] case Some(i) => PropertyRequests(cs[i], a)))
    case MapRequest(w, root) =>
      st.(log := st.log + MapRequests(cs, Roots(screens), w, root))
    case KeyPress(w) =>
      st.(log := st.log + [HandleKey(w)])
    case ButtonPress(w, b, x, y) =>
      st.(log := st.log + ButtonEvent.ButtonRequests(ClientFor(cs, w), b, x, y))
    case ConfigureRequest(w, mask, x, y, width, height, above, detail) =>
      st.(log := st.log +
        (if IndexOf(cs, w).Some? then [] else [ConfigureWindow(w, mask, ConfigureChanges(x, y, width, height, above, detail))]))
    case Message(e, root) =>
      var r := MessageOutcome(cs, Roots(screens), e, root);
      st.(clients := r.0, log := st.log + r.1)
    case Other =>
      st
  }

  /**
   * Only an UnmapNotify can set the cleanup flag or flag a client; no handler
   * adds, drops, reorders or re-screens a client (a new window is handed to
   * `make_new_client`); requests are only ever appended; and a flagged client
   * stays accounted for by the flag.
   */
  lemma DispatchedKeeps(st: LoopState, screens: seq<ScreenInfo>, ev: Event)
    requires OnScreens(st.clients, screens) && Serviceable(Roots(screens), ev)
    ensures var r := Dispatched(st, screens, ev);
      && SameHandles(st.clients, r.clients)
      && (!ev.UnmapNotify? ==> r.needCleanup == st.needCleanup && SameRemovals(st.clients, r.clients))
      && st.log <= r.log
      && (Pending(st.clients, st.needCleanup) ==> Pending(r.clients, r.needCleanup))
  {
  }

  /** The `switch` of `main_event_loop`: one handler per event type. */
  method Dispatch(m: Manager, ev: Event)
    requires m.Valid() && |m.screens| < 256 && Serviceable(Roots(m.screens), ev)
    modifies m`clients, m`log, m`needCleanup
    ensures m.Valid()
    ensures Snapshot(m) == Dispatched(old(Snapshot(m)), m.screens, ev)
  {
    match ev
    case EnterNotify(w) =>
      HandleEnter(m, w);
    case UnmapNotify(w) =>
      HandleUnmap(m, w);
    case PropertyNotify(w, a) =>
      HandlePropertyChange(m, w, a);
    case MapRequest(w, root) =>
      HandleMapRequest(m, w, root);
    case KeyPress(w) =>
      m.log := m.log + [HandleKey(w)];
    case ButtonPress(w, b, x, y) =>
      var c := FindClient(m, w);
      var cl := if c.Some? then Some(m.clients[c.value]) else None;
      m.log := m.log + ButtonEvent.ButtonRequests(cl, b, x, y);
    case ConfigureRequest(w, mask, x, y, width, height, above, detail) =>
      HandleConfigureRequest(m, w, mask, x, y, width, height, above, detail);
    case Message(e, root) =>
      HandleClientMessage(m, e, root);
    case Other =>
  }

  /**
   * `cleanup()` on loop state `st`: the flag is cleared, the flagged clients
   * are removed in registry order and the rest are kept in order, so no
   * client is left flagged and every client is either kept or removed.
   */
  function CleanedUp(st: LoopState): (r: LoopState)
    ensures !r.needCleanup
    ensures forall i :: 0 <= i < |r.clients| ==> Remove !in r.clients[i].opt
    ensures forall c :: c in r.clients <==> c in st.clients && Remove !in c.opt
    ensures |r.clients| + |r.log| == |st.clients| + |st.log|
    ensures st.log <= r.log
  {
    KeptUnflagged(st.clients);
    KeptOrRemoved(st.clients);
    forall c
      ensures c in Kept(st.clients) <==> c in st.clients && Remove !in c.opt
    {
      KeptExactly(st.clients, c);
    }
    LoopState(Kept(st.clients), false, st.log + RemovalLog(st.clients))
  }

  /** Every kept client was registered, so the kept clients stay on their screens. */
  lemma KeptOnScreens(cs: seq<Client>, screens: seq<ScreenInfo>)
    requires OnScreens(cs, screens)
    ensures OnScreens(Kept(cs), screens)
  {
    forall i | 0 <= i < |Kept(cs)|
      ensures Kept(cs)[i].screen < |screens|
    {
      KeptExactly(cs, Kept(cs)[i]);
    }
  }

  /**
   * One turn of `main_event_loop` on loop state `st`: dispatch the event,
   * then run `cleanup` exactly when the flag is set afterwards.
   */
  function Stepped(st: LoopState, screens: seq<ScreenInfo>, ev: Event): (r: LoopState)
    requires OnScreens(st.clients, screens) && Serviceable(Roots(screens), ev)
    ensures OnScreens(r.clients, screens)
    ensures st.log <= r.log
    ensures Dispatched(st, screens, ev).needCleanup ==> r == CleanedUp(Dispatched(st, screens, ev))
    ensures !Dispatched(st, screens, ev).needCleanup ==> r == Dispatched(st, screens, ev)
    ensures Pending(st.clients, st.needCleanup) ==>
      !r.needCleanup && forall i :: 0 <= i < |r.clients| ==> Remove !in r.clients[i].opt
  {
    DispatchedKeeps(st, screens, ev);
    var d := Dispatched(st, screens, ev);
    if d.needCleanup then
      KeptOnScreens(d.clients, screens);
      CleanedUp(d)
    else d
  }

  /**
   * A client unmapped with no unmap left to ignore is gone by the end of the
   * same turn: its removal is requested and no client is left with its window.
   */
  lemma UnmapRemovesInSameTurn(st: LoopState, screens: seq<ScreenInfo>, w: Window)
    requires OnScreens(st.clients, screens) && Distinct(st.clients)
    requires IndexOf(st.clients, w).Some? && st.clients[IndexOf(st.clients, w).value].ignoreUnmap < 1
    ensures var x := st.clients[IndexOf(st.clients, w).value].window;
      var r := Stepped(st, screens, UnmapNotify(w));
      RemoveClient(x) in r.log && forall c :: c in r.clients ==> c.window != x
  {
    var i := IndexOf(st.clients, w).value;
    var x := st.clients[i].window;
    DispatchedKeeps(st, screens, UnmapNotify(w));
    var d := Dispatched(st, screens, UnmapNotify(w));
    assert d.clients == st.clients[i := Unmapped(st.clients[i]).0] && d.needCleanup;
    RemovedExactly(d.clients, x);
    forall c | c in Kept(d.clients)
      ensures c.window != x
    {
      KeptExactly(d.clients, c);
      var j :| 0 <= j < |d.clients| && d.clients[j] == c;
    }
  }

  /**
   * `main_event_loop()` on loop state `st` over the events `evs`, in arrival
   * order: one turn per event.
   */
  function Run(st: LoopState, screens: seq<ScreenInfo>, evs: seq<Event>): (r: LoopState)
    requires OnScreens(st.clients, screens)
    requires forall k :: 0 <= k < |evs| ==> Serviceable(Roots(screens), evs[k])
    ensures OnScreens(r.clients, screens)
    ensures st.log <= r.log
    ensures Pending(st.clients, st.needCleanup) ==> Pending(r.clients, r.needCleanup)
    ensures Pending(st.clients, st.needCleanup) && evs != [] ==>
      !r.needCleanup && forall i :: 0 <= i < |r.clients| ==> Remove !in r.clients[i].opt
    decreases |evs|
  {
    if evs == [] then st
    else
      var prev := Run(st, screens, evs[..|evs| - 1]);
      Stepped(prev, screens, evs[|evs| - 1])
  }

  /** One turn of `main_event_loop`. */
  method Step(m: Manager, ev: Event)
    requires m.Valid() && |m.screens| < 256 && Serviceable(Roots(m.screens), ev)
    modifies m`clients, m`log, m`needCleanup
    ensures m.Valid()
    ensures Snapshot(m) == Stepped(old(Snapshot(m)), m.screens, ev)
  {
    Dispatch(m, ev);
    if m.needCleanup {
      Cleanup(m);
    }
  }

  /**
   * `main_event_loop()` over the events `evs`, in arrival order (the source
   * loops forever; the model runs a finite prefix of the event stream).
   */
  method MainEventLoop(m: Manager, evs: seq<Event>)
    requires m.Valid() && |m.screens| < 256
    requires forall k :: 0 <= k < |evs| ==> Serviceable(Roots(m.screens), evs[k])
    modifies m`clients, m`log, m`needCleanup
    ensures m.Valid()
    ensures Snapshot(m) == Run(old(Snapshot(m)), m.screens, evs)
  {
    var k := 0;
    while k < |evs|
      invariant 0 <= k <= |evs| && m.Valid()
      invariant Snapshot(m) == Run(old(Snapshot(m)), m.screens, evs[..k])
    {
      assert evs[..k + 1][..k] == evs[..k];
      Step(m, evs[k]);
      k := k + 1;
    }
    assert evs[..k] == evs;
  }
}
