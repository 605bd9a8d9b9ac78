/**
 * The client messages ewmh.c answers (`ewmh_client_message`) and the client
 * list it publishes on the first root window (`ewmh_update_client_list`), after
 * the Extended Window Manager Hints.
 */
module Ewmh {
  import opened Protocol
  import opened ClientRecord
  import opened Util
  import opened EwmhState
  import opened EwmhGeometry

  /** `MAX_CLIENTS`, the capacity of the static window buffer. */
  const MaxClients: nat := 1024

  /** `(l0 >> 12) & 3`: the source indication of `_NET_MOVERESIZE_WINDOW` (2 is a pager). */
  function SourceOf(l0: int): (r: int)
    ensures 0 <= r < 4
  {
    (l0 / 4096) % 4
  }

  /** `(l0 >> 8) & 0x0f`: which of x, y, width, height are present, in CWX..CWHeight order. */
  function MaskOf(l0: int): (r: nat)
    ensures r < 16
  {
    (l0 / 256) % 16
  }

  /** `l0 & 0xff`: the gravity, 0 meaning the window's own. */
  function GravityOf(l0: int): (r: nat)
    ensures r < 256
  {
    l0 % 256
  }

  /** The packing of the first data word of `_NET_MOVERESIZE_WINDOW`, with arbitrary higher bits `rest`. */
  function PackMoveResize(rest: int, source: nat, mask: nat, gravity: nat): int
    requires source < 4 && mask < 16 && gravity < 256
  {
    ((rest * 4 + source) * 16 + mask) * 256 + gravity
  }

  /** Decoding recovers each field of any packed word, whatever its higher bits (two's-complement shifts included). */
  lemma {:induction false} MoveResizeFieldsRoundTrip(rest: int, source: nat, mask: nat, gravity: nat)
    requires source < 4 && mask < 16 && gravity < 256
    ensures var l0 := PackMoveResize(rest, source, mask, gravity);
      SourceOf(l0) == source && MaskOf(l0) == mask && GravityOf(l0) == gravity
  {
    var l0 := PackMoveResize(rest, source, mask, gravity);
    var b := rest * 4 + source;
    var a := b * 16 + mask;
    assert l0 == a * 256 + gravity;
    assert l0 / 256 == a && l0 % 256 == gravity;
    assert a / 16 == b && a % 16 == mask;
    assert l0 / 4096 == a / 16;
    assert b % 4 == source;
  }

  /** Which branch of `ewmh_client_message`'s else-if chain a message takes. */
  datatype EwmhAction =
    | ClientToDesktop | SetViewport | SetDesktopCount | Activate | Close
    | PagerMoveResize | IgnoredMoveResize | UserMove | WmStateChange | Minimize | NoAction

  /** The branch for message `e` whose window is a managed client when `managed`. */
  function Classify(e: ClientMessage, managed: bool): (r: EwmhAction)
    ensures r == WmStateChange <==> e.messageType == NetWmState
    ensures r == NoAction ==> e.messageType !in {NetDesktopViewport, NetNumberOfDesktops, NetMoveresizeWindow, NetWmState}
    ensures r in {ClientToDesktop, Activate, Close, UserMove, Minimize} ==> managed
  {
    var t := e.messageType;
    if t == NetWmDesktop && managed then ClientToDesktop
    else if t == NetDesktopViewport then SetViewport
    else if t == NetNumberOfDesktops then SetDesktopCount
    else if t == NetActiveWindow && e.l0 == 2 && managed then Activate
    else if t == NetCloseWindow && e.l1 == 2 && managed then Close
    else if t == NetMoveresizeWindow then (if SourceOf(e.l0) == 2 then PagerMoveResize else IgnoredMoveResize)
    else if t == NetWmMoveresize && managed then UserMove
    else if t == NetWmState then WmStateChange
    else if t == WmChangeState && managed && e.l0 == 3 then Minimize
    else NoAction
  }

  /** A message about a window nobody manages can only touch root properties, be a pager move, or a state change. */
  lemma UnmanagedMessages(e: ClientMessage)
    ensures Classify(e, false) in {SetViewport, SetDesktopCount, PagerMoveResize, IgnoredMoveResize, WmStateChange, NoAction}
  {
  }

  /** A move/resize request is applied exactly when its source indication says pager (2). */
  lemma MoveResizeOnlyFromPagers(e: ClientMessage, managed: bool)
    requires e.messageType == NetMoveresizeWindow
    ensures Classify(e, managed) == PagerMoveResize <==> SourceOf(e.l0) == 2
    ensures Classify(e, managed) in {PagerMoveResize, IgnoredMoveResize}
  {
  }

  /** Activation and closing are honoured only for managed windows, with source 2 and `l[1] == 2` respectively. */
  lemma ActivateAndCloseConditions(e: ClientMessage, managed: bool)
    ensures Classify(e, managed) == Activate <==> e.messageType == NetActiveWindow && e.l0 == 2 && managed
    ensures Classify(e, managed) == Close <==> e.messageType == NetCloseWindow && e.l1 == 2 && managed
  {
  }

  /** The request a `_NET_MOVERESIZE_WINDOW` message carries: x, y, width, height in `l[1..4]`, the rest zero. */
  function MoveResizeChanges(e: ClientMessage): WindowChanges {
    WindowChanges(e.l1, e.l2, e.l3, e.l4, 0, 0, 0)
  }

  /**
   * What the branch of `ewmh_client_message`'s else-if chain taken by message
   * `e` (other than `_NET_WM_STATE`) makes of the registry `cs`, request log
   * `log` and properties `props`. `c` is the index of the client whose window
   * the message names, if any.
   */
  function Branched(e: ClientMessage, c: Option<nat>, screens: seq<ScreenInfo>,
                    cs: seq<Client>, log: seq<Request>, props: Props): (seq<Client>, seq<Request>, Props)
    requires |screens| > 0 && c == IndexOf(cs, e.window) && e.messageType != NetWmState
    requires forall i :: 0 <= i < |cs| ==> cs[i].screen < |screens|
    requires e.messageType == NetMoveresizeWindow && SourceOf(e.l0) == 2 ==> c.Some?
  {
    var root := screens[0].root;
    match Classify(e, c.Some?)
    case NoAction | IgnoredMoveResize => (cs, log, props)
    case ClientToDesktop => (cs, log + [ClientToVdesk(cs[c.value].window, e.l0)], props)
    case SetViewport => (cs, log, props[(root, NetDesktopViewport) := [0, 0]])
    case SetDesktopCount =>
      (cs, log, props[(root, NetNumberOfDesktops) := [MaxDesktops as int]]
                     [(root, NetDesktopViewport) := [0, 0]][(root, NetVirtualRoots) := [root]])
    case Activate => (cs, log + [SelectClient(cs[c.value].window)], props)
    case Close => (cs, log + [SendWmDelete(cs[c.value].window)], props)
    case PagerMoveResize =>
      var cl := cs[c.value];
      var o := WindowChangesOf(MaskOf(e.l0), MoveResizeChanges(e), cl, GravityOf(e.l0),
        screens[cl.screen].width, screens[cl.screen].height);
      (cs[c.value := cl.(size := o.size)], log + o.requests, props)
    case UserMove => (cs, log + [RaiseWindow(cs[c.value].parent), Drag(cs[c.value].window)], props)
    case Minimize => (cs, log + [LowerWindow(cs[c.value].parent)], props)
  }

  /**
   * `ewmh_client_message(e)`. A `_NET_CURRENT_DESKTOP` message first switches
   * the first screen's desktop; then one branch of the chain runs. The
   * move/resize branch dereferences the client unchecked, so the caller must
   * ensure that a pager's move/resize names a managed window.
   */
  method EwmhClientMessage(m: Manager, e: ClientMessage)
    requires m.Valid() && |m.screens| > 0
    requires e.messageType == NetMoveresizeWindow && SourceOf(e.l0) == 2 ==> IndexOf(m.clients, e.window).Some?
    modifies m`clients, m`log, m`props
    ensures m.Valid() && |m.clients| == |old(m.clients)|
    ensures e.messageType == NetWmState ==>
      StoreOf(m) == WmStateChanged(old(StoreOf(m)), e, IndexOf(old(m.clients), e.window))
    ensures e.messageType != NetWmState ==>
      var log0 := old(m.log) + (if e.messageType == NetCurrentDesktop then [SwitchVdesk(0, e.l0)] else []);
      (m.clients, m.log, m.props) == Branched(e, IndexOf(old(m.clients), e.window), m.screens, old(m.clients), log0, old(m.props))
  {
    if e.messageType == NetCurrentDesktop {
      m.log := m.log + [SwitchVdesk(0, e.l0)];
    }
    var c := FindClient(m, e.window);
    if e.messageType == NetWmState {
      HandleWmStateChanges(m, e, c);
    } else {
      ghost var cs0, log0, props0 := m.clients, m.log, m.props;
      assert cs0 == old(m.clients) && props0 == old(m.props);
      assert log0 == old(m.log) + (if e.messageType == NetCurrentDesktop then [SwitchVdesk(0, e.l0)] else []);
      MessageBranch(m, e, c);
      assert (m.clients, m.log, m.props) == Branched(e, c, m.screens, cs0, log0, props0);
    }
  }

  /** The else-if chain of `ewmh_client_message` for a message other than `_NET_WM_STATE`, the client at `c` being the window's. */
  method MessageBranch(m: Manager, e: ClientMessage, c: Option<nat>)
    requires m.Valid() && |m.screens| > 0 && c == IndexOf(m.clients, e.window) && e.messageType != NetWmState
    requires e.messageType == NetMoveresizeWindow && SourceOf(e.l0) == 2 ==> IndexOf(m.clients, e.window).Some?
    modifies m`clients, m`log, m`props
    ensures m.Valid() && |m.clients| == |old(m.clients)|
    ensures (m.clients, m.log, m.props) == Branched(e, c, m.screens, old(m.clients), old(m.log), old(m.props))
  {
    var t := e.messageType;
    var val := e.l0;
    var root := m.screens[0].root;
    ghost var a := Classify(e, c.Some?);
    ghost var b := Branched(e, c, m.screens, m.clients, m.log, m.props);
    if t == NetWmDesktop && c.Some? {
      assert a == ClientToDesktop;
      m.log := m.log + [ClientToVdesk(m.clients[c.value].window, val)];
      assert (m.clients, m.log, m.props) == b;
    } else if t == NetDesktopViewport {
      assert a == SetViewport;
      m.props := m.props[(root, NetDesktopViewport) := [0, 0]];
      assert (m.clients, m.log, m.props) == b;
    } else if t == NetNumberOfDesktops {
      assert a == SetDesktopCount;
      m.props := m.props[(root, NetNumberOfDesktops) := [MaxDesktops as int]];
      m.props := m.props[(root, NetDesktopViewport) := [0, 0]];
      m.props := m.props[(root, NetVirtualRoots) := [root]];
      assert (m.clients, m.log, m.props) == b;
    } else if t == NetActiveWindow && val == 2 && c.Some? {
      assert a == Activate;
      m.log := m.log + [SelectClient(m.clients[c.value].window)];
      assert (m.clients, m.log, m.props) == b;
    } else if t == NetCloseWindow && e.l1 == 2 && c.Some? {
      assert a == Close;
      m.log := m.log + [SendWmDelete(m.clients[c.value].window)];
      assert (m.clients, m.log, m.props) == b;
    } else {
      MessageBranchRest(m, e, c);
    }
  }

  /**
   * The rest of the chain, once `e` has matched none of the desktop, viewport,
   * desktop-count, activate and close branches.
   */
  method MessageBranchRest(m: Manager, e: ClientMessage, c: Option<nat>)
    requires m.Valid() && |m.screens| > 0 && c == IndexOf(m.clients, e.window) && e.messageType != NetWmState
    requires e.messageType == NetMoveresizeWindow && SourceOf(e.l0) == 2 ==> IndexOf(m.clients, e.window).Some?
    requires !(e.messageType == NetWmDesktop && c.Some?)
    requires e.messageType != NetDesktopViewport && e.messageType != NetNumberOfDesktops
    requires !(e.messageType == NetActiveWindow && e.l0 == 2 && c.Some?)
    requires !(e.messageType == NetCloseWindow && e.l1 == 2 && c.Some?)
    modifies m`clients, m`log
    ensures m.Valid() && |m.clients| == |old(m.clients)|
    ensures (m.clients, m.log, m.props) == Branched(e, c, m.screens, old(m.clients), old(m.log), old(m.props))
  {
    var t := e.messageType;
    var val := e.l0;
    if t == NetMoveresizeWindow {
      var src := (val / 4096) % 4;
      if src == 2 {
        ApplyPagerMoveResize(m, e, c.value);
      }
    } else {
      UserRequestBranch(m, e, c);
    }
  }

  /**
   * The last two branches of the chain, for a message that is no
   * `_NET_MOVERESIZE_WINDOW` either: a client's own move/resize request
   * starts a drag, and `WM_CHANGE_STATE` to iconic (3) lowers its frame.
   */
  method UserRequestBranch(m: Manager, e: ClientMessage, c: Option<nat>)
    requires m.Valid() && |m.screens| > 0 && c == IndexOf(m.clients, e.window) && e.messageType != NetWmState
    requires !(e.messageType == NetWmDesktop && c.Some?)
    requires e.messageType != NetDesktopViewport && e.messageType != NetNumberOfDesktops
    requires !(e.messageType == NetActiveWindow && e.l0 == 2 && c.Some?)
    requires !(e.messageType == NetCloseWindow && e.l1 == 2 && c.Some?)
    requires e.messageType != NetMoveresizeWindow
    modifies m`log
    ensures (m.clients, m.log, m.props) == Branched(e, c, m.screens, m.clients, old(m.log), m.props)
  {
    var t := e.messageType;
    ghost var b := Branched(e, c, m.screens, m.clients, m.log, m.props);
    if t == NetWmMoveresize && c.Some? {
      m.log := m.log + [RaiseWindow(m.clients[c.value].parent), Drag(m.clients[c.value].window)];
      assert (m.clients, m.log, m.props) == b;
    } else if t == WmChangeState && c.Some? {
      if e.l0 == 3 {
        m.log := m.log + [LowerWindow(m.clients[c.value].parent)];
        assert (m.clients, m.log, m.props) == b;
      }
    }
  }

  /**
   * The `_NET_MOVERESIZE_WINDOW` branch for a pager's message about the client
   * at `i`: decode the value mask and gravity from `l[0]` and the geometry
   * from `l[1..4]`, and apply them as a configure request would be.
   */
  method ApplyPagerMoveResize(m: Manager, e: ClientMessage, i: nat)
    requires m.Valid() && i < |m.clients|
    modifies m`clients, m`log
    ensures m.Valid()
    ensures var cl := old(m.clients[i]);
      var o := WindowChangesOf(MaskOf(e.l0), MoveResizeChanges(e), cl, GravityOf(e.l0),
        old(m.screens[cl.screen].width), old(m.screens[cl.screen].height));
      m.clients == old(m.clients)[i := cl.(size := o.size)] && m.log == old(m.log) + o.requests
  {
    var val := e.l0;
    var wc := WindowChanges(e.l1, e.l2, e.l3, e.l4, 0, 0, 0);
    var vm := (val / 256) % 16;
    var grav := val % 256;
    DoWindowChanges(m, i, vm, wc, grav);
  }

  /** The application windows of the registry, in order. */
  function Windows(cs: seq<Client>): (r: seq<Window>)
    ensures |r| == |cs|
    ensures forall i :: 0 <= i < |cs| ==> r[i] == cs[i].window
  {
    if cs == [] then [] else [cs[0].window] + Windows(cs[1..])
  }

  /** The published list: the windows of the first `MAX_CLIENTS` clients from the head. */
  function ClientList(cs: seq<Client>): (r: seq<Window>)
    ensures |r| == Min(|cs|, MaxClients)
    ensures forall i :: 0 <= i < |r| ==> r[i] == cs[i].window
  {
    Windows(cs)[..Min(|cs|, MaxClients)]
  }

  /** Up to the buffer's capacity the list names every client, and it never names anything but a client. */
  lemma ClientListComplete(cs: seq<Client>, w: Window)
    ensures w in ClientList(cs) ==> exists i :: 0 <= i < |cs| && cs[i].window == w
    ensures |cs| <= MaxClients ==> (w in ClientList(cs) <==> exists i :: 0 <= i < |cs| && cs[i].window == w)
  {
    var r := ClientList(cs);
    if |cs| <= MaxClients {
      if i :| 0 <= i < |cs| && cs[i].window == w {
        assert r[i] == w;
      }
    }
  }

  /**
   * `ewmh_update_client_list()`: copy the windows into the static buffer
   * from the head until it is full, and publish the buffer's prefix as both
   * `_NET_CLIENT_LIST` and `_NET_CLIENT_LIST_STACKING` of the first root.
   */
  method UpdateClientList(m: Manager)
    requires |m.screens| > 0
    modifies m`props
    ensures var root := m.screens[0].root;
      m.props == old(m.props)[(root, NetClientList) := ClientList(m.clients)][(root, NetClientListStacking) := ClientList(m.clients)]
  {
    var wl := new Window[MaxClients];
    var count := 0;
    while count < |m.clients| && count < MaxClients
      modifies wl
      invariant 0 <= count <= Min(|m.clients|, MaxClients)
      invariant wl[..count] == ClientList(m.clients)[..count]
    {
      wl[count] := m.clients[count].window;
      count := count + 1;
    }
    assert count == Min(|m.clients|, MaxClients);
    assert wl[..count] == ClientList(m.clients);
    var root := m.screens[0].root;
    m.props := m.props[(root, NetClientList) := wl[..count]];
    m.props := m.props[(root, NetClientListStacking) := wl[..count]];
  }
}
