/**
 * The part of the X11 protocol the window manager speaks, as abstract values:
 * resource identifiers, atoms, the protocol's numeric constants, and the
 * requests the manager issues, which the model appends to a log instead of
 * sending them to a server.
 */
module Protocol {

  /** An X resource identifier; 0 is `None`. */
  type Window = int

  /** An interned atom; 0 is `None`. */
  type Atom = int

  const NoWindow: Window := 0
  const NoAtom: Atom := 0

  datatype Option<T> = None | Some(value: T) {
    function GetOr(default: T): T {
      match this
      case Some(v) => v
      case None => default
    }
  }

  // Predefined atoms (X11/Xatom.h).
  const XaAtom: Atom := 4
  const XaCardinal: Atom := 6
  const XaWindow: Atom := 33
  const XaWmHints: Atom := 35
  const XaWmName: Atom := 39

  // Interned atoms. The server hands out distinct values above the predefined
  // range; the model fixes one such value per name and relies only on their
  // being distinct and non-zero.
  const NetCurrentDesktop: Atom := 70
  const NetNumberOfDesktops: Atom := 71
  const NetDesktopViewport: Atom := 72
  const NetActiveWindow: Atom := 73
  const NetMoveresizeWindow: Atom := 74
  const NetCloseWindow: Atom := 75
  const NetClientList: Atom := 76
  const NetClientListStacking: Atom := 77
  const NetVirtualRoots: Atom := 78
  const NetWmDesktop: Atom := 79
  const NetWmMoveresize: Atom := 80
  const NetWmState: Atom := 81
  const NetWmStateSticky: Atom := 82
  const NetWmStateMaximizedVert: Atom := 83
  const NetWmStateMaximizedHorz: Atom := 84
  const NetWmStateShaded: Atom := 85
  const NetWmStateHidden: Atom := 86
  const NetWmStateFullscreen: Atom := 87
  const NetWmStateAbove: Atom := 88
  const NetWmStateBelow: Atom := 89
  const NetWmStateSkipPager: Atom := 90
  const NetFrameExtents: Atom := 91
  const NetWmOpaqueRegion: Atom := 92
  const NetWmUserTime: Atom := 93
  const WmChangeState: Atom := 94

  // XConfigureWindow value-mask bits (X11/X.h).
  const CWX: nat := 1
  const CWY: nat := 2
  const CWWidth: nat := 4
  const CWHeight: nat := 8
  const CWBorderWidth: nat := 16
  const CWSibling: nat := 32
  const CWStackMode: nat := 64

  // win_gravity values of WM_NORMAL_HINTS (ICCCM section 4.1.2.3, X11/X.h).
  const NorthWestGravity: int := 1
  const NorthGravity: int := 2
  const NorthEastGravity: int := 3
  const WestGravity: int := 4
  const CenterGravity: int := 5
  const EastGravity: int := 6
  const SouthWestGravity: int := 7
  const SouthGravity: int := 8
  const SouthEastGravity: int := 9

  // Pointer buttons.
  const Button1: int := 1
  const Button2: int := 2
  const Button3: int := 3

  // Key and button modifier masks (X11/X.h).
  const ShiftMask: nat := 1
  const LockMask: nat := 2
  const ControlMask: nat := 4
  const Mod1Mask: nat := 8
  const Mod2Mask: nat := 16
  const Mod3Mask: nat := 32
  const Mod4Mask: nat := 64
  const Mod5Mask: nat := 128

  /** `mask & flag != 0` for a single-bit `flag` and a non-negative `mask`. */
  predicate Has(mask: int, flag: nat)
    requires flag > 0
  {
    (mask / flag) % 2 == 1
  }

  /** `mask | flag` for a single-bit `flag`. */
  function With(mask: int, flag: nat): (r: int)
    requires flag > 0
  {
    if Has(mask, flag) then mask else mask + flag
  }

  /** Fields of an `XWindowChanges` structure. */
  datatype WindowChanges = WindowChanges(
    x: int, y: int, width: int, height: int,
    borderWidth: int, sibling: Window, stackMode: int)

  /** An `XClientMessageEvent` with 32-bit data: the target window, the message type and `data.l[0..4]`. */
  datatype ClientMessage = ClientMessage(
    window: Window, messageType: Atom, l0: int, l1: int, l2: int, l3: int, l4: int)

  /**
   * A request issued to the server, or the call of a collaborator whose code
   * is not part of this model (title bar rendering, focus, key handling, the
   * other revision's desktop switch, ...), recorded in issue order.
   */
  datatype Request =
    | RaiseWindow(w: Window)
    | LowerWindow(w: Window)
    | MapWindow(w: Window)
    | UnmapWindow(w: Window)
    | MoveResizeWindow(w: Window, x: int, y: int, width: int, height: int)
    | ConfigureWindow(w: Window, mask: int, changes: WindowChanges)
    | CreateFrame(frame: Window, root: Window, x: int, y: int, width: int, height: int, border: int)
    | ReparentWindow(w: Window, parent: Window, x: int, y: int)
    | AddToSaveSet(w: Window)
    | SelectInput(w: Window)
    | SendConfigureNotify(w: Window, x: int, y: int, width: int, height: int)
    | GrabPointer(root: Window)
    | UngrabPointer
    | WarpPointer(w: Window, x: int, y: int)
    | DrawRectangle(root: Window, x: int, y: int, width: int, height: int)
    // collaborators
    | GrabWindowKeys(w: Window)
    | SetAllowedActions(w: Window)
    | QueryShape(w: Window)
    | SetShape(w: Window)
    | UpdateTitleBar(w: Window)
    | RestoreClient(w: Window)
    | HideClient(w: Window)
    | UnhideClient(w: Window)
    | SelectClient(w: Window)
    | SendWmDelete(w: Window)
    | Maximize(w: Window)
    | Shade(w: Window)
    | Drag(w: Window)
    | Sweep(w: Window)
    | AddSticky(w: Window)
    | RemoveSticky(w: Window)
    | MoveResize(w: Window)
    | SwitchVdesk(screen: nat, v: int)
    | ClientToVdesk(w: Window, v: int)
    | MakeNewClient(w: Window, onScreen: Option<nat>)
    | RemoveClient(w: Window)
    | HandleKey(w: Window)
}
