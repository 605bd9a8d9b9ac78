/**
 * The client record of JBWMClient.h and the window manager's global state:
 * the singly linked registry of clients (head first), the screens, the
 * cleanup flag, and the server-side state the model keeps in place of a
 * display connection (window properties and the log of issued requests).
 */
module ClientRecord {
  import opened Protocol

  /** `int8_t ignore_unmap:3`: a 3-bit signed field. */
  type IgnoreCount = x: int | -4 <= x <= 3

  /** `uint8_t vdesk:4`: a 4-bit unsigned field. */
  type VDesk = x: int | 0 <= x <= 15

  /** `uint8_t border:1`: a 1-bit field. */
  type Bit = x: int | 0 <= x <= 1

  /** An `uint8_t`. */
  type Byte = x: int | 0 <= x <= 255

  type Positive = x: int | x > 0 witness 1

  /** JBWM_MAX_DESKTOPS (config.h is not part of this model). */
  const MaxDesktops: nat := 10

  /** TDIM, the title bar height: a font metric, known only to be positive. */
  const TDim: Positive

  /** The one-bit fields of `struct JBWMClientOptions`. */
  datatype Opt =
    | Fullscreen | MaxHorz | MaxVert | NoBorder | NoCloseDecor | NoClose
    | NoResizeDecor | NoMax | NoMinDecor | NoMin | NoMove | NoResize
    | NoTitleBar | Remove | Shaded | Shaped | Sticky | Tearoff

  /**
   * A client's options: the set of bits that are on. Each bit is independent
   * of the others, and a zero-initialised record has the empty set.
   */
  type Options = set<Opt>

  /** Assigning `on` to one bit. */
  function Assign(o: Options, f: Opt, on: bool): (r: Options)
    ensures (f in r) == on
    ensures r - {f} == o - {f}
  {
    if on then o + {f} else o - {f}
  }

  /** The fields of `XSizeHints` the manager uses. */
  datatype SizeHints = SizeHints(
    x: int, y: int, width: int, height: int,
    minWidth: int, minHeight: int, maxWidth: int, maxHeight: int,
    winGravity: int)

  /**
   * `struct JBWMClient`. The `next` link is the client's position in the
   * registry sequence; `screen` is an index into the screens. `gravityHint`
   * is the copy of the WM_NORMAL_HINTS gravity that the ewmh.c revision keeps.
   */
  datatype Client = Client(
    window: Window, parent: Window, size: SizeHints, cmap: int,
    ignoreUnmap: IgnoreCount, vdesk: VDesk, border: Bit, screen: nat,
    opt: Options, gravityHint: int)

  /** `struct JBWMScreen`: root window, pixel size and current desktop. */
  datatype ScreenInfo = ScreenInfo(root: Window, width: nat, height: nat, vdesk: Byte)

  /** Storing into `ignore_unmap`: two's-complement truncation to 3 bits. */
  function ToIgnoreCount(x: int): (r: IgnoreCount)
    ensures -4 <= x <= 3 ==> r == x
    ensures (x - r) % 8 == 0
  {
    (x + 4) % 8 - 4
  }

  /** Storing into `vdesk`: truncation to 4 bits. */
  function ToVDesk(x: int): (r: VDesk)
    ensures 0 <= x <= 15 ==> r == x
    ensures (x - r) % 16 == 0
  {
    x % 16
  }

  /** Conversion to `uint8_t`: truncation to 8 bits. */
  function ToByte(x: int): (r: Byte)
    ensures 0 <= x <= 255 ==> r == x
    ensures (x - r) % 256 == 0
  {
    x % 256
  }

  /** A freshly allocated record: every field zero but those given. */
  function NewRecord(w: Window, s: nat): (c: Client)
    ensures c.window == w && c.screen == s && c.border == 1
    ensures c.ignoreUnmap == 0 && c.vdesk == 0 && c.parent == NoWindow
    ensures c.opt == {}
  {
    Client(w, NoWindow, SizeHints(0, 0, 0, 0, 0, 0, 0, 0, 0), 0, 0, 0, 1, s, {}, 0)
  }

  /** `find_client` matches an application window or its frame. */
  predicate Matches(c: Client, w: Window) {
    c.window == w || c.parent == w
  }

  /** The position of the first client `w` names, as `find_client` walks from the head. */
  function IndexOf(cs: seq<Client>, w: Window): (r: Option<nat>)
    ensures r.Some? ==> r.value < |cs| && Matches(cs[r.value], w)
    ensures r.Some? ==> forall j :: 0 <= j < r.value ==> !Matches(cs[j], w)
    ensures r.None? <==> forall j :: 0 <= j < |cs| ==> !Matches(cs[j], w)
  {
    if cs == [] then None
    else if Matches(cs[0], w) then Some(0)
    else match IndexOf(cs[1..], w)
      case None => None
      case Some(k) => Some(k + 1)
  }

  /**
   * The registry invariant: at most one client per window, no two clients
   * share a frame, and a frame is never a client's application window.
   */
  ghost predicate Distinct(cs: seq<Client>) {
    && (forall i, j :: 0 <= i < |cs| && 0 <= j < |cs| && i != j ==>
          cs[i].window != cs[j].window && cs[i].parent != cs[j].parent)
    && (forall i, j :: 0 <= i < |cs| && 0 <= j < |cs| ==> cs[i].window != cs[j].parent)
  }

  /** A handle not yet used by any client. */
  ghost predicate Unused(cs: seq<Client>, w: Window) {
    forall j :: 0 <= j < |cs| ==> !Matches(cs[j], w)
  }

  lemma {:induction false} PrependKeepsDistinct(cs: seq<Client>, c: Client)
    requires Distinct(cs) && Unused(cs, c.window) && Unused(cs, c.parent)
    requires c.window != c.parent
    ensures Distinct([c] + cs)
  {
    var ds := [c] + cs;
    forall i, j | 0 <= i < |ds| && 0 <= j < |ds|
      ensures i != j ==> ds[i].window != ds[j].window && ds[i].parent != ds[j].parent
      ensures ds[i].window != ds[j].parent
    {
      if i > 0 && j > 0 {
        assert ds[i] == cs[i - 1] && ds[j] == cs[j - 1];
      } else if i > 0 {
        assert !Matches(cs[i - 1], c.window) && !Matches(cs[i - 1], c.parent);
      } else if j > 0 {
        assert !Matches(cs[j - 1], c.window) && !Matches(cs[j - 1], c.parent);
      }
    }
  }

  /** Rewriting a client's record without touching its handles keeps the registry invariant. */
  lemma ReplaceKeepsDistinct(cs: seq<Client>, i: nat, c: Client)
    requires Distinct(cs) && i < |cs|
    requires c.window == cs[i].window && c.parent == cs[i].parent
    ensures Distinct(cs[i := c])
  {
  }

  /** Two clients that match the same handle are the same client. */
  lemma DistinctMatchUnique(cs: seq<Client>, i: nat, j: nat, w: Window)
    requires Distinct(cs) && i < |cs| && j < |cs|
    requires Matches(cs[i], w) && Matches(cs[j], w)
    ensures i == j
  {
  }

  /**
   * The global state of the manager (`jbwm` in jbwmenv.h) together with what
   * the server holds for it: window properties and the requests sent so far.
   */
  class Manager {
    /** The client registry, head first: `jbwm.head`, `->next`, ... */
    var clients: seq<Client>
    var screens: seq<ScreenInfo>
    var needCleanup: bool
    /** Window properties on the server, by window and property atom. */
    var props: map<(Window, Atom), seq<int>>
    /** Requests issued, oldest first. */
    var log: seq<Request>

    ghost predicate Valid()
      reads this`clients, this`screens
    {
      && Distinct(clients)
      && (forall i :: 0 <= i < |clients| ==> clients[i].screen < |screens|)
    }

    constructor (screens: seq<ScreenInfo>)
      ensures Valid()
      ensures this.screens == screens && clients == [] && !needCleanup
      ensures props == map[] && log == []
    {
      this.screens := screens;
      clients := [];
      needCleanup := false;
      props := map[];
      log := [];
    }
  }

  /** Store a rewritten record for the client at `i`, whose handles and screen are unchanged. */
  method SetClient(m: Manager, i: nat, c: Client)
    requires m.Valid() && i < |m.clients|
    requires c.window == m.clients[i].window && c.parent == m.clients[i].parent && c.screen == m.clients[i].screen
    modifies m`clients
    ensures m.clients == old(m.clients)[i := c] && m.Valid()
  {
    ReplaceKeepsDistinct(m.clients, i, c);
    m.clients := m.clients[i := c];
  }

  /** Store desktop `v` as screen `s`'s current desktop (`s->vdesk = v`). */
  method SetScreenDesktop(m: Manager, s: nat, v: Byte)
    requires m.Valid() && s < |m.screens|
    modifies m`screens
    ensures m.screens == old(m.screens)[s := old(m.screens[s]).(vdesk := v)] && m.Valid()
  {
    m.screens := m.screens[s := m.screens[s].(vdesk := v)];
  }

  /**
   * `maximize(c)`, whose code is not part of this model: it toggles the
   * client's maximized (fullscreen) flag; the geometry it sets is not modelled.
   */
  method ToggleMaximize(m: Manager, i: nat)
    requires m.Valid() && i < |m.clients|
    modifies m`clients, m`log
    ensures var c := old(m.clients[i]);
      m.clients == old(m.clients)[i := c.(opt := Assign(c.opt, Fullscreen, Fullscreen !in c.opt))]
    ensures m.log == old(m.log) + [Maximize(old(m.clients[i].window))]
    ensures m.Valid()
  {
    var c := m.clients[i];
    SetClient(m, i, c.(opt := Assign(c.opt, Fullscreen, Fullscreen !in c.opt)));
    m.log := m.log + [Maximize(c.window)];
  }

  /** `find_client`: a linear scan of the registry from the head. */
  method FindClient(m: Manager, w: Window) returns (r: Option<nat>)
    ensures r == IndexOf(m.clients, w)
  {
    var i := 0;
    while i < |m.clients|
      invariant 0 <= i <= |m.clients|
      invariant forall j :: 0 <= j < i ==> !Matches(m.clients[j], w)
    {
      if Matches(m.clients[i], w) {
        IndexOfFirst(m.clients, w, i);
        return Some(i);
      }
      i := i + 1;
    }
    r := None;
  }

  lemma {:induction false} IndexOfFirst(cs: seq<Client>, w: Window, i: nat)
    requires i < |cs| && Matches(cs[i], w)
    requires forall j :: 0 <= j < i ==> !Matches(cs[j], w)
    ensures IndexOf(cs, w) == Some(i)
  {
    if i > 0 {
      IndexOfFirst(cs[1..], w, i - 1);
    }
  }
}
