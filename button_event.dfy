/**
 * Pointer button presses on a client (button_event.c, built with USE_TBAR):
 * which actions a press starts, by button and by where on the title bar it
 * lands. The actions (shade, sweep, drag, delete) are collaborators whose
 * code is not part of this model; the result is the list of what is invoked.
 */
module ButtonEvent {
  import opened Protocol
  import opened ClientRecord

  /**
   * The action a Button1 press at (x, y) ends with, after the close box is
   * handled: the resize box on the right edge, then the shade box left of it
   * (top row only), and a drag anywhere else.
   */
  function RegionAction(c: Client, x: int, y: int): (r: Request)
    ensures x > c.size.width - TDim ==> r == Sweep(c.window)
    ensures x <= c.size.width - TDim && x > c.size.width - 2 * TDim && y < TDim ==> r == Shade(c.window)
    ensures r == Sweep(c.window) || r == Shade(c.window) || r == Drag(c.window)
  {
    var width := c.size.width;
    if x > width - TDim then Sweep(c.window)
    else if x > width - TDim - TDim && y < TDim then Shade(c.window)
    else Drag(c.window)
  }

  /** `button1_event(e, c)`: raise the frame, handle the close box, then fall through to the region action. */
  function Button1Requests(c: Client, x: int, y: int): (r: seq<Request>)
    ensures 2 <= |r| <= 4 && r[0] == RaiseWindow(c.parent)
    ensures r[|r| - 1] == RegionAction(c, x, y)
    ensures SendWmDelete(c.window) in r <==> x < TDim && y < TDim
  {
    var close := if x < TDim && y < TDim
      then (if Shaded in c.opt then [Shade(c.window)] else []) + [SendWmDelete(c.window)]
      else [];
    [RaiseWindow(c.parent)] + close + [RegionAction(c, x, y)]
  }

  /**
   * `jbwm_handle_button_event(e)` for the client the event's window names
   * (None when unmanaged): nothing for an unmanaged or maximized client;
   * Button1 as above, Button2 lowers the frame, Button3 resizes.
   */
  function ButtonRequests(c: Option<Client>, button: int, x: int, y: int): (r: seq<Request>)
    ensures c.None? || Fullscreen in c.value.opt ==> r == []
    ensures c.Some? && Fullscreen !in c.value.opt && button == Button2 ==> r == [LowerWindow(c.value.parent)]
    ensures c.Some? && Fullscreen !in c.value.opt && button == Button3 ==> r == [Sweep(c.value.window)]
    ensures button !in {Button1, Button2, Button3} ==> r == []
  {
    match c
    case None => []
    case Some(cl) =>
      if Fullscreen in cl.opt then []
      else if button == Button1 then Button1Requests(cl, x, y)
      else if button == Button2 then [LowerWindow(cl.parent)]
      else if button == Button3 then [Sweep(cl.window)]
      else []
  }

  /**
   * A press in the close box of a window at least three title heights wide
   * deletes the window and, because the branches fall through, also starts a
   * drag; a shaded window is unshaded first.
   */
  lemma CloseBoxFallsThroughToDrag(c: Client, x: int, y: int)
    requires 0 <= x < TDim && 0 <= y < TDim && c.size.width >= 3 * TDim
    ensures Button1Requests(c, x, y) ==
      [RaiseWindow(c.parent)] + (if Shaded in c.opt then [Shade(c.window)] else []) + [SendWmDelete(c.window), Drag(c.window)]
  {
  }

  /** The resize box takes precedence over the shade box, whatever the row. */
  lemma ResizeBoxWins(c: Client, x: int, y: int)
    requires x > c.size.width - TDim
    ensures RegionAction(c, x, y) == Sweep(c.window)
    ensures Shade(c.window) !in Button1Requests(c, x, y)[1..] || (x < TDim && y < TDim && Shaded in c.opt)
  {
  }

  /** Every Button1 press on a managed, unmaximized client raises it first and starts exactly one of resize, shade or drag last. */
  lemma Button1Shape(c: Client, x: int, y: int)
    requires Fullscreen !in c.opt
    ensures var r := ButtonRequests(Some(c), Button1, x, y);
      r[0] == RaiseWindow(c.parent) && r[|r| - 1] in {Sweep(c.window), Shade(c.window), Drag(c.window)}
      && 2 <= |r| <= 4
  {
  }
}
