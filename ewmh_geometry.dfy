/**
 * The gravity-aware resize of ewmh.c: `gravitate_border` and
 * `do_window_changes`, which apply a configure request (from
 * `_NET_MOVERESIZE_WINDOW`) to a client, clamp the size to its
 * WM_NORMAL_HINTS bounds and, when no position was requested, move the window
 * so that the reference point of its win_gravity (ICCCM section 4.1.2.3)
 * stays where it was.
 */
module EwmhGeometry {
  import opened Protocol
  import opened ClientRecord
  import opened Util

  /**
   * Which vertical edge a gravity keeps fixed: -1 the west edge, 0 the centre,
   * 1 the east edge. Unknown values behave as NorthWest.
   */
  function Column(g: int): (k: int)
    ensures -1 <= k <= 1
  {
    if g == NorthGravity || g == CenterGravity || g == SouthGravity then 0
    else if g == NorthEastGravity || g == EastGravity || g == SouthEastGravity then 1
    else -1
  }

  /** Which horizontal edge a gravity keeps fixed: -1 north, 0 centre, 1 south. */
  function Row(g: int): (k: int)
    ensures -1 <= k <= 1
  {
    if g == WestGravity || g == CenterGravity || g == EastGravity then 0
    else if g == SouthWestGravity || g == SouthGravity || g == SouthEastGravity then 1
    else -1
  }

  /**
   * The offset `gravitate_border` applies for border width `bw`: `bw` times
   * the negated column of the gravity across, and its negated row down (a
   * NorthWest-anchored window moves by `(bw, bw)`, a centred one not at all).
   */
  function BorderShift(g: int, bw: int): (d: (int, int))
    ensures d.0 == -Column(g) * bw && d.1 == -Row(g) * bw
  {
    if g == NorthGravity then (0, bw)
    else if g == NorthEastGravity then (-bw, bw)
    else if g == EastGravity then (-bw, 0)
    else if g == CenterGravity then (0, 0)
    else if g == WestGravity then (bw, 0)
    else if g == SouthWestGravity then (bw, -bw)
    else if g == SouthGravity then (0, -bw)
    else if g == SouthEastGravity then (-bw, -bw)
    else (bw, bw)
  }

  /**
   * `gravitate_border(c, bw)`: shift the position by the border offset of the
   * client's gravity, on each axis unless the window sits at 0 and spans the
   * whole display on that axis.
   */
  function GravitateBorder(s: SizeHints, bw: int, dispW: int, dispH: int): (r: SizeHints)
    ensures r == s.(x := r.x, y := r.y)
    ensures r.x == (if s.x != 0 || s.width != dispW then s.x + BorderShift(s.winGravity, bw).0 else s.x)
    ensures r.y == (if s.y != 0 || s.height != dispH then s.y + BorderShift(s.winGravity, bw).1 else s.y)
  {
    var d := BorderShift(s.winGravity, bw);
    var x := if s.x != 0 || s.width != dispW then s.x + d.0 else s.x;
    var y := if s.y != 0 || s.height != dispH then s.y + d.1 else s.y;
    s.(x := x, y := y)
  }

  /**
   * The size `do_window_changes` stores for a requested dimension: raised to
   * the minimum, then lowered to the maximum when there is one (`max != 0`).
   */
  function ClampDim(req: int, min: int, max: int): (r: int)
    ensures max != 0 ==> r <= max
    ensures max == 0 || min <= max ==> r >= min
    ensures min <= req && (max == 0 || req <= max) ==> r == req
    ensures r == req || r == min || r == max
    ensures req < min && (max == 0 || min <= max) ==> r == min
    ensures max != 0 && Max(req, min) > max ==> r == max
    ensures max == 0 || Max(req, min) <= max ==> r == Max(req, min)
  {
    var n := if req < min then min else req;
    if max != 0 && n > max then max else n
  }

  /**
   * The position after a resize by (dw, dh) that keeps the gravity's reference
   * point: the east/south edge moves back by the full delta, the centre by half
   * of it (C's `/ 2`, truncated), the west/north edge not at all.
   */
  function Reanchor(g: int, x: int, y: int, dw: int, dh: int): (p: (int, int))
    ensures p.0 == x - (if Column(g) < 0 then 0 else if Column(g) == 0 then Half(dw) else dw)
    ensures p.1 == y - (if Row(g) < 0 then 0 else if Row(g) == 0 then Half(dh) else dh)
  {
    if g == NorthGravity then (x - Half(dw), y)
    else if g == NorthEastGravity then (x - dw, y)
    else if g == WestGravity then (x, y - Half(dh))
    else if g == CenterGravity then (x - Half(dw), y - Half(dh))
    else if g == EastGravity then (x - dw, y - Half(dh))
    else if g == SouthWestGravity then (x, y - dh)
    else if g == SouthGravity then (x - Half(dw), y - dh)
    else if g == SouthEastGravity then (x - dw, y - dh)
    else (x, y)
  }

  /**
   * Twice the coordinate of the reference point along one axis, for an edge
   * selector `k` (-1 low edge, 0 centre, 1 high edge) of an interval starting
   * at `p` with extent `e`. Doubling keeps the centre integral.
   */
  function Anchor(k: int, p: int, e: int): int {
    if k < 0 then 2 * p else if k == 0 then 2 * p + e else 2 * (p + e)
  }

  /**
   * Re-anchoring keeps the reference point of every gravity: exactly for the
   * edges, and within one unit of the doubled coordinate for the centre,
   * because C's halving truncates.
   */
  lemma {:induction false} ReanchorKeepsAnchor(g: int, x: int, y: int, w: int, h: int, dw: int, dh: int)
    ensures var p := Reanchor(g, x, y, dw, dh);
      && Abs(Anchor(Column(g), p.0, w + dw) - Anchor(Column(g), x, w)) <= (if Column(g) == 0 then 1 else 0)
      && Abs(Anchor(Row(g), p.1, h + dh) - Anchor(Row(g), y, h)) <= (if Row(g) == 0 then 1 else 0)
  {
    var hw, hh := Half(dw), Half(dh);
    assert dw - 2 * hw == 0 || dw - 2 * hw == (if dw < 0 then -1 else 1);
    assert dh - 2 * hh == 0 || dh - 2 * hh == (if dh < 0 then -1 else 1);
  }

  /** What `do_window_changes` leaves behind: the client's new size hints and the requests it sends. */
  datatype Changes = Changes(size: SizeHints, requests: seq<Request>)

  /** The resize part: clamp each requested dimension and report the deltas. */
  function Resize(s: SizeHints, mask: nat, wc: WindowChanges): (r: (SizeHints, int, int))
    ensures r.0 == s.(width := r.0.width, height := r.0.height)
    ensures r.0.width == (if Has(mask, CWWidth) then ClampDim(wc.width, s.minWidth, s.maxWidth) else s.width)
    ensures r.0.height == (if Has(mask, CWHeight) then ClampDim(wc.height, s.minHeight, s.maxHeight) else s.height)
    ensures r.1 == r.0.width - s.width && r.2 == r.0.height - s.height
  {
    var w := if Has(mask, CWWidth) then ClampDim(wc.width, s.minWidth, s.maxWidth) else s.width;
    var h := if Has(mask, CWHeight) then ClampDim(wc.height, s.minHeight, s.maxHeight) else s.height;
    (s.(width := w, height := h), w - s.width, h - s.height)
  }

  predicate Positioned(mask: nat) {
    Has(mask, CWX) || Has(mask, CWY)
  }

  predicate Sized(mask: nat) {
    Has(mask, CWWidth) || Has(mask, CWHeight)
  }

  /** The new size hints after `do_window_changes`, and the value mask it configures the frame with. */
  function NewGeometry(mask: nat, wc: WindowChanges, c: Client, gravity: int, dispW: int, dispH: int): (r: (SizeHints, nat))
    ensures r.0.winGravity == (if gravity == 0 then c.gravityHint else gravity)
    ensures r.0 == c.size.(x := r.0.x, y := r.0.y, width := r.0.width, height := r.0.height, winGravity := r.0.winGravity)
    ensures !Sized(mask) ==> r.1 == mask && r.0.width == c.size.width && r.0.height == c.size.height
    ensures !Sized(mask) ==>
      r.0.x == (if Has(mask, CWX) then wc.x else c.size.x) && r.0.y == (if Has(mask, CWY) then wc.y else c.size.y)
    ensures Positioned(mask) ==> r.1 == mask
    ensures Sized(mask) && !Positioned(mask) ==> Positioned(r.1) && Sized(r.1)
    ensures Has(mask, CWWidth) ==> r.0.width == ClampDim(wc.width, c.size.minWidth, c.size.maxWidth)
    ensures Has(mask, CWHeight) ==> r.0.height == ClampDim(wc.height, c.size.minHeight, c.size.maxHeight)
  {
    var g := if gravity == 0 then c.gravityHint else gravity;
    var s0 := c.size.(winGravity := g);
    var s1 := if Has(mask, CWX) then s0.(x := wc.x) else s0;
    var s2 := if Has(mask, CWY) then s1.(y := wc.y) else s1;
    if !Sized(mask) then (s2, mask)
    else if Positioned(mask) then (Resize(s2, mask, wc).0, mask)
    else
      PositionBitsAdded(mask);
      (UnpositionedResize(s2, c.border, mask, wc, dispW, dispH), With(With(mask, CWX), CWY))
  }

  /** `value_mask |= CWX|CWY` on a mask with size bits and no position bits keeps the size bits. */
  lemma PositionBitsAdded(mask: nat)
    requires Sized(mask) && !Positioned(mask)
    ensures var m := With(With(mask, CWX), CWY);
      m == mask + 3 && Has(m, CWX) && Has(m, CWY) && Sized(m)
  {
    LowBitsSet(mask);
    assert With(mask, CWX) == mask + 1;
    assert With(mask + 1, CWY) == mask + 3;
  }

  /** Setting the two low bits of a number whose two low bits are clear adds 3 and leaves the higher bits. */
  lemma LowBitsSet(n: nat)
    requires n % 2 == 0 && (n / 2) % 2 == 0
    ensures (n + 1) % 2 == 1 && ((n + 1) / 2) % 2 == 0
    ensures (n + 3) % 2 == 1 && ((n + 3) / 2) % 2 == 1
    ensures (n + 3) / 4 == n / 4 && (n + 3) / 8 == n / 8
  {
    var t, u, r := n / 8, (n / 4) % 2, n % 4;
    assert n == 8 * t + 4 * u + r by {
      assert n == 4 * (n / 4) + r;
      assert n / 4 == 2 * t + u;
    }
    LowBitsClear(t, u, r);
    LowBitsSetOf(t, u);
  }

  /** A number `8 * t + 4 * u + r` whose two low bits are clear has `r == 0`. */
  lemma LowBitsClear(t: nat, u: nat, r: nat)
    requires u <= 1 && r < 4
    requires var n := 8 * t + 4 * u + r; n % 2 == 0 && (n / 2) % 2 == 0
    ensures r == 0
  {
  }

  /** `LowBitsSet` for a number written as `8 * t + 4 * u`. */
  lemma LowBitsSetOf(t: nat, u: nat)
    requires u <= 1
    ensures var n := 8 * t + 4 * u;
      && (n + 1) % 2 == 1 && ((n + 1) / 2) % 2 == 0
      && (n + 3) % 2 == 1 && ((n + 3) / 2) % 2 == 1
      && (n + 3) / 4 == n / 4 && (n + 3) / 8 == n / 8
  {
  }

  /**
   * A resize without a position: take the border off the position, resize,
   * move the window so that its gravity's reference point stays, and put the
   * border back.
   */
  function UnpositionedResize(s: SizeHints, b: int, mask: nat, wc: WindowChanges, dispW: int, dispH: int): (r: SizeHints)
    ensures r == s.(x := r.x, y := r.y, width := r.width, height := r.height)
    ensures r.width == (if Has(mask, CWWidth) then ClampDim(wc.width, s.minWidth, s.maxWidth) else s.width)
    ensures r.height == (if Has(mask, CWHeight) then ClampDim(wc.height, s.minHeight, s.maxHeight) else s.height)
  {
    var s3 := GravitateBorder(s, -b, dispW, dispH);
    var rs := Resize(s3, mask, wc);
    var p := Reanchor(s.winGravity, rs.0.x, rs.0.y, rs.1, rs.2);
    GravitateBorder(rs.0.(x := p.0, y := p.1), b, dispW, dispH)
  }

  /** `UnpositionedResize` is the border taken off, the resize, the re-anchoring and the border put back, in that order. */
  lemma UnpositionedResizeSteps(s: SizeHints, b: int, mask: nat, wc: WindowChanges, dispW: int, dispH: int,
                                bare: SizeHints, resized: SizeHints, dw: int, dh: int, p: (int, int))
    requires bare == GravitateBorder(s, -b, dispW, dispH)
    requires (resized, dw, dh) == Resize(bare, mask, wc)
    requires p == Reanchor(s.winGravity, resized.x, resized.y, dw, dh)
    ensures UnpositionedResize(s, b, mask, wc, dispW, dispH) == GravitateBorder(resized.(x := p.0, y := p.1), b, dispW, dispH)
  {
  }

  /** `do_window_changes` as a whole. */
  function WindowChangesOf(mask: nat, wc: WindowChanges, c: Client, gravity: int, dispW: int, dispH: int): (r: Changes)
    ensures r.size == NewGeometry(mask, wc, c, gravity, dispW, dispH).0
    ensures |r.requests| == 2 || |r.requests| == 3
    ensures r.requests[0].ConfigureWindow? && r.requests[0].w == c.parent
    ensures r.requests[1] == MoveResizeWindow(c.window, 0, 0, r.size.width, r.size.height)
    ensures |r.requests| == 3 <==> Positioned(mask) && !Sized(mask)
  {
    var (s, mask') := NewGeometry(mask, wc, c, gravity, dispW, dispH);
    Changes(s, ConfigureRequests(c, wc, s, mask'))
  }

  /**
   * The requests that end `do_window_changes`: the frame configured with the
   * request moved out by the border, the window resized inside it, and a
   * synthetic ConfigureNotify for a pure move.
   */
  function ConfigureRequests(c: Client, wc: WindowChanges, s: SizeHints, mask': nat): (r: seq<Request>)
    ensures |r| == 2 || |r| == 3
    ensures r[0].ConfigureWindow? && r[0].w == c.parent && r[0].mask == mask'
    ensures r[0].changes.x + c.border == s.x && r[0].changes.y + c.border == s.y && r[0].changes.borderWidth == c.border
    ensures r[0].changes.width == wc.width && r[0].changes.height == wc.height
    ensures r[1] == MoveResizeWindow(c.window, 0, 0, s.width, s.height)
    ensures |r| == 3 <==> Positioned(mask') && !Sized(mask')
    ensures |r| == 3 ==> r[2] == SendConfigureNotify(c.window, s.x, s.y, s.width, s.height)
  {
    var frame := wc.(x := s.x - c.border, y := s.y - c.border, borderWidth := c.border);
    var notify := if Positioned(mask') && !Sized(mask')
      then [SendConfigureNotify(c.window, s.x, s.y, s.width, s.height)] else [];
    [ConfigureWindow(c.parent, mask', frame), MoveResizeWindow(c.window, 0, 0, s.width, s.height)] + notify
  }

  /**
   * The body of `do_window_changes` up to the configure calls: the size hints
   * rewritten step by step, and the value mask the frame is configured with.
   */
  method ComputeGeometry(mask: nat, wc: WindowChanges, c: Client, gravity: int, dispW: int, dispH: int)
    returns (size: SizeHints, mask': nat)
    ensures (size, mask') == NewGeometry(mask, wc, c, gravity, dispW, dispH)
  {
    var g := if gravity == 0 then c.gravityHint else gravity;
    size := c.size.(winGravity := g);
    mask' := mask;
    if Has(mask, CWX) { size := size.(x := wc.x); }
    if Has(mask, CWY) { size := size.(y := wc.y); }
    if !Sized(mask) {
      return;
    }
    ghost var placed := size;
    var dw, dh := 0, 0;
    if !Positioned(mask) {
      size := GravitateBorder(size, -(c.border as int), dispW, dispH);
    }
    ghost var before := size;
    if Has(mask, CWWidth) {
      var neww := ClampDim(wc.width, size.minWidth, size.maxWidth);
      dw := neww - size.width;
      size := size.(width := neww);
    }
    if Has(mask, CWHeight) {
      var newh := ClampDim(wc.height, size.minHeight, size.maxHeight);
      dh := newh - size.height;
      size := size.(height := newh);
    }
    assert (size, dw, dh) == Resize(before, mask, wc);
    if !Positioned(mask) {
      var p := Reanchor(g, size.x, size.y, dw, dh);
      UnpositionedResizeSteps(placed, c.border, mask, wc, dispW, dispH, before, size, dw, dh, p);
      size := size.(x := p.0, y := p.1);
      mask' := With(With(mask, CWX), CWY);
      size := GravitateBorder(size, c.border, dispW, dispH);
    } else {
      assert size == Resize(placed, mask, wc).0;
    }
  }

  /**
   * `do_window_changes(value_mask, wc, c, gravity)` on the client at `i`:
   * the request's gravity (or, when 0, the client's hint) becomes the client's
   * win_gravity, the size hints are rewritten, and the frame and window are
   * configured.
   */
  method DoWindowChanges(m: Manager, i: nat, mask: nat, wc: WindowChanges, gravity: int)
    requires m.Valid() && i < |m.clients|
    modifies m`clients, m`log
    ensures var c := old(m.clients[i]);
      var o := WindowChangesOf(mask, wc, c, gravity, old(m.screens[c.screen].width), old(m.screens[c.screen].height));
      && m.clients == old(m.clients)[i := c.(size := o.size)]
      && m.log == old(m.log) + o.requests
    ensures m.Valid()
  {
    var c := m.clients[i];
    var size, mask' := ComputeGeometry(mask, wc, c, gravity, m.screens[c.screen].width, m.screens[c.screen].height);
    var frame := wc.(x := size.x - c.border, y := size.y - c.border, borderWidth := c.border);
    var requests := [ConfigureWindow(c.parent, mask', frame), MoveResizeWindow(c.window, 0, 0, size.width, size.height)];
    if Positioned(mask') && !Sized(mask') {
      requests := requests + [SendConfigureNotify(c.window, size.x, size.y, size.width, size.height)];
    }
    assert requests == ConfigureRequests(c, wc, size, mask');
    m.log := m.log + requests;
    SetClient(m, i, c.(size := size));
  }

  /**
   * A request that names a position is applied as given: no gravity and no
   * border correction, and each requested dimension is clamped.
   */
  lemma PositionedRequestIsTaken(mask: nat, wc: WindowChanges, c: Client, gravity: int, dispW: int, dispH: int)
    requires Positioned(mask)
    ensures var s := WindowChangesOf(mask, wc, c, gravity, dispW, dispH).size;
      && s.x == (if Has(mask, CWX) then wc.x else c.size.x)
      && s.y == (if Has(mask, CWY) then wc.y else c.size.y)
      && s.width == (if Has(mask, CWWidth) then ClampDim(wc.width, c.size.minWidth, c.size.maxWidth) else c.size.width)
      && s.height == (if Has(mask, CWHeight) then ClampDim(wc.height, c.size.minHeight, c.size.maxHeight) else c.size.height)
  {
  }

  /**
   * A resize without a position, of a client without border, keeps the
   * reference point of the request's gravity (of the client's hint when the
   * request gives 0): section 4.1.2.3 of the ICCCM.
   */
  lemma {:induction false} UnpositionedResizeKeepsAnchor(mask: nat, wc: WindowChanges, c: Client, gravity: int, dispW: int, dispH: int)
    requires Sized(mask) && !Positioned(mask) && c.border == 0
    ensures var s := WindowChangesOf(mask, wc, c, gravity, dispW, dispH).size;
      var g := if gravity == 0 then c.gravityHint else gravity;
      && s.winGravity == g
      && Abs(Anchor(Column(g), s.x, s.width) - Anchor(Column(g), c.size.x, c.size.width)) <= (if Column(g) == 0 then 1 else 0)
      && Abs(Anchor(Row(g), s.y, s.height) - Anchor(Row(g), c.size.y, c.size.height)) <= (if Row(g) == 0 then 1 else 0)
  {
    var g := if gravity == 0 then c.gravityHint else gravity;
    var s2 := c.size.(winGravity := g);
    assert GravitateBorder(s2, 0, dispW, dispH) == s2;
    var rs := Resize(s2, mask, wc);
    var p := Reanchor(g, rs.0.x, rs.0.y, rs.1, rs.2);
    ReanchorKeepsAnchor(g, rs.0.x, rs.0.y, s2.width, s2.height, rs.1, rs.2);
    assert GravitateBorder(rs.0.(x := p.0, y := p.1), 0, dispW, dispH) == rs.0.(x := p.0, y := p.1);
  }

  /**
   * With a border, the correction before and after the resize cancels (so
   * the reference point is kept as without border) for a window that spans
   * the display on neither axis, before or after.
   */
  lemma BorderCorrectionCancels(mask: nat, wc: WindowChanges, c: Client, gravity: int, dispW: int, dispH: int)
    requires Sized(mask) && !Positioned(mask)
    requires c.size.width != dispW && c.size.height != dispH
    requires var s := WindowChangesOf(mask, wc, c, gravity, dispW, dispH).size;
      s.width != dispW && s.height != dispH
    ensures WindowChangesOf(mask, wc, c, gravity, dispW, dispH).size
         == WindowChangesOf(mask, wc, c.(border := 0), gravity, dispW, dispH).size
  {
    var g := if gravity == 0 then c.gravityHint else gravity;
    UnpositionedBorderCancels(c.size.(winGravity := g), c.border, mask, wc, dispW, dispH);
  }

  /** The pipeline of an unpositioned resize gives the same result for any border, away from the display-spanning case. */
  lemma {:induction false} UnpositionedBorderCancels(s: SizeHints, b: int, mask: nat, wc: WindowChanges, dispW: int, dispH: int)
    requires s.width != dispW && s.height != dispH
    requires var r := UnpositionedResize(s, b, mask, wc, dispW, dispH);
      r.width != dispW && r.height != dispH
    ensures UnpositionedResize(s, b, mask, wc, dispW, dispH) == UnpositionedResize(s, 0, mask, wc, dispW, dispH)
  {
    var g := s.winGravity;
    var d := BorderShift(g, b);
    BorderShiftNegates(g, b);
    var s3 := GravitateBorder(s, -b, dispW, dispH);
    assert GravitateBorder(s, 0, dispW, dispH) == s;
    assert s3 == s.(x := s.x - d.0, y := s.y - d.1);
    var rs := Resize(s3, mask, wc);
    var rs0 := Resize(s, mask, wc);
    var p := Reanchor(g, rs.0.x, rs.0.y, rs.1, rs.2);
    var p0 := Reanchor(g, rs0.0.x, rs0.0.y, rs0.1, rs0.2);
    ReanchorTranslates(g, rs0.0.x, rs0.0.y, -d.0, -d.1, rs.1, rs.2);
    var t := rs.0.(x := p.0, y := p.1);
    var t0 := rs0.0.(x := p0.0, y := p0.1);
    assert t == t0.(x := t0.x - d.0, y := t0.y - d.1);
    assert GravitateBorder(t0, 0, dispW, dispH) == t0;
  }

  /** The border offset is odd in the border width. */
  lemma BorderShiftNegates(g: int, b: int)
    ensures BorderShift(g, -b) == (-BorderShift(g, b).0, -BorderShift(g, b).1)
  {
  }

  /** Re-anchoring commutes with a translation of the window. */
  lemma ReanchorTranslates(g: int, x: int, y: int, dx: int, dy: int, dw: int, dh: int)
    ensures Reanchor(g, x + dx, y + dy, dw, dh) == (Reanchor(g, x, y, dw, dh).0 + dx, Reanchor(g, x, y, dw, dh).1 + dy)
  {
  }

  /** A client with a minimum width of 100 asking for 50 under NorthWest gravity gets 100 and keeps its x. */
  lemma MinimumWidthScenario(c: Client, wc: WindowChanges, dispW: int, dispH: int)
    requires c.border == 0 && c.size.minWidth == 100 && c.size.maxWidth == 0 && wc.width == 50
    ensures var s := WindowChangesOf(CWWidth, wc, c, NorthWestGravity, dispW, dispH).size;
      s.width == 100 && s.x == c.size.x && s.y == c.size.y
  {
    assert Has(CWWidth, CWWidth) && !Has(CWWidth, CWHeight) && !Has(CWWidth, CWX) && !Has(CWWidth, CWY);
  }
}
