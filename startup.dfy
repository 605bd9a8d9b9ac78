/**
 * Start-up (jbwm.c): the modifier names accepted on the command line, the
 * per-screen records, and the adoption of the windows already mapped when
 * the manager starts. What the display reports (screen roots and sizes, the
 * children of a root and their attributes) is given as parameters.
 */
module Startup {
  import opened Protocol
  import opened ClientRecord

  /** The modifier masks a command-line name can select. */
  const ModifierMasks: set<int> := {ShiftMask, LockMask, ControlMask, Mod1Mask, Mod2Mask, Mod3Mask, Mod4Mask, Mod5Mask}

  /**
   * `parse_modifiers(arg)`: only the fourth character of a name longer than
   * three characters is looked at ("shift", "lock", "control"/"ctrl",
   * "mod2".."mod5"); every other argument, "alt" and "mod1" included, means
   * Mod1.
   */
  function ParseModifiers(arg: string): (r: int)
    ensures r in ModifierMasks
    ensures |arg| <= 3 ==> r == Mod1Mask
  {
    if |arg| > 3 then
      match arg[3]
      case 'f' => ShiftMask
      case 'k' => LockMask
      case 't' => ControlMask
      case 'l' => ControlMask
      case '2' => Mod2Mask
      case '3' => Mod3Mask
      case '4' => Mod4Mask
      case '5' => Mod5Mask
      case _ => Mod1Mask
    else Mod1Mask
  }

  /** The documented names select their modifiers. */
  lemma ModifierNames()
    ensures ParseModifiers("shift") == ShiftMask && ParseModifiers("lock") == LockMask
    ensures ParseModifiers("control") == ControlMask && ParseModifiers("ctrl") == ControlMask
    ensures ParseModifiers("alt") == Mod1Mask && ParseModifiers("mod1") == Mod1Mask
    ensures ParseModifiers("mod2") == Mod2Mask && ParseModifiers("mod3") == Mod3Mask
    ensures ParseModifiers("mod4") == Mod4Mask && ParseModifiers("mod5") == Mod5Mask
  {
  }

  /** Two arguments that agree on their fourth character select the same modifier, whatever else they say. */
  lemma FourthCharacterDecides(a: string, b: string)
    requires |a| > 3 && |b| > 3 && a[3] == b[3]
    ensures ParseModifiers(a) == ParseModifiers(b)
  {
  }

  /** A child of a root as `XQueryTree` and `XGetWindowAttributes` report it. */
  datatype TopLevel = TopLevel(window: Window, overrideRedirect: bool, viewable: bool)

  /** `check_redirect`: adopt a window that does not bypass the manager and is already viewable. */
  predicate CheckRedirect(t: TopLevel): (r: bool)
    ensures r ==> !t.overrideRedirect
    ensures r ==> t.viewable
    ensures !t.overrideRedirect && t.viewable ==> r
  {
    !t.overrideRedirect && t.viewable
  }

  /**
   * The windows adopted from `ws`, in the order they are adopted: from the
   * last child (topmost in stacking order) down to the first.
   */
  function Adopted(ws: seq<TopLevel>): (r: seq<Window>)
    ensures |r| <= |ws|
  {
    if ws == [] then []
    else Adopted(ws[1..]) + (if CheckRedirect(ws[0]) then [ws[0].window] else [])
  }

  /** A window is adopted exactly when one of the children carrying it passes `check_redirect`. */
  lemma {:induction false} AdoptedMembership(ws: seq<TopLevel>, w: Window)
    ensures w in Adopted(ws) <==> exists i :: 0 <= i < |ws| && ws[i].window == w && CheckRedirect(ws[i])
  {
    if ws != [] {
      AdoptedMembership(ws[1..], w);
      if w in Adopted(ws[1..]) {
        var i :| 0 <= i < |ws[1..]| && ws[1..][i].window == w && CheckRedirect(ws[1..][i]);
        assert ws[i + 1] == ws[1..][i];
      }
      if exists i :: 0 <= i < |ws| && ws[i].window == w && CheckRedirect(ws[i]) {
        var i :| 0 <= i < |ws| && ws[i].window == w && CheckRedirect(ws[i]);
        if i > 0 {
          assert ws[1..][i - 1] == ws[i];
        }
      }
    }
  }

  /** The topmost child is adopted first when it qualifies. */
  lemma {:induction false} TopmostFirst(ws: seq<TopLevel>)
    requires |ws| > 0 && CheckRedirect(ws[|ws| - 1])
    ensures |Adopted(ws)| > 0 && Adopted(ws)[0] == ws[|ws| - 1].window
  {
    if |ws| > 1 {
      var rest := ws[1..];
      assert rest[|rest| - 1] == ws[|ws| - 1];
      TopmostFirst(rest);
      var tail := if CheckRedirect(ws[0]) then [ws[0].window] else [];
      assert Adopted(ws) == Adopted(rest) + tail;
    }
  }

  /**
   * `setup_clients(d, s)`: query the children of the root, keep the count in
   * a 16-bit variable, and walk down from the last child calling
   * `jbwm_new_client` on each that `check_redirect` accepts. The result is
   * the windows handed to `jbwm_new_client`, in call order.
   */
  method SetupClients(ws: seq<TopLevel>) returns (adopted: seq<Window>)
    ensures adopted == Adopted(ws[..|ws| % 65536])
  {
    var count := |ws| % 65536;
    var n := count;
    adopted := [];
    while n > 0
      invariant 0 <= n <= count
      invariant adopted == Adopted(ws[n..count])
    {
      n := n - 1;
      assert ws[n..count][1..] == ws[n + 1..count];
      if CheckRedirect(ws[n]) {
        adopted := adopted + [ws[n].window];
      }
    }
    assert ws[0..count] == ws[..count];
  }

  /** What the display reports about its screens: a root and a size each. */
  datatype Display = Display(roots: seq<Window>, widths: seq<nat>, heights: seq<nat>)
  {
    predicate WellFormed() {
      |roots| == |widths| == |heights|
    }

    /** `ScreenCount(d)` as `main` keeps it, in an 8-bit variable. */
    function Count(): nat {
      |roots| % 256
    }
  }

  /** The record `setup_screen_elements(d, i)` fills in: root, size, desktop 0. */
  function Elements(d: Display, i: nat): (r: ScreenInfo)
    requires d.WellFormed() && i < |d.roots|
    ensures r.root == d.roots[i] && r.vdesk == 0
  {
    ScreenInfo(d.roots[i], d.widths[i], d.heights[i], 0)
  }

  /**
   * `main`'s loop over `setup_screen_elements` AS WRITTEN: the record it
   * fills is always the first of the array, so after the loop (which runs
   * from the last screen down to 0) only screen 0 is initialised and every
   * other screen's record is left as it was.
   */
  method InitScreensAsWritten(init: seq<ScreenInfo>, d: Display) returns (screens: seq<ScreenInfo>)
    requires d.WellFormed() && |init| == d.Count()
    ensures |init| > 0 ==> screens == init[0 := Elements(d, 0)]
    ensures |init| == 0 ==> screens == init
  {
    screens := init;
    var i := d.Count();
    while i > 0
      invariant 0 <= i <= d.Count() && |screens| == |init|
      invariant i < d.Count() ==> screens == init[0 := Elements(d, i)]
      invariant i == d.Count() ==> screens == init
    {
      i := i - 1;
      screens := screens[0 := Elements(d, i)];
    }
  }

  /** Two screens whose second record starts out blank: as written, it stays blank. */
  lemma SecondScreenUninitialisedAsWritten()
    ensures var d := Display([10, 20], [640, 800], [480, 600]);
      var init := [ScreenInfo(0, 0, 0, 0), ScreenInfo(0, 0, 0, 0)];
      init[0 := Elements(d, 0)][1] != Elements(d, 1)
  {
  }

  /** The intended loop: record `i` is filled for screen `i`. */
  method InitScreens(init: seq<ScreenInfo>, d: Display) returns (screens: seq<ScreenInfo>)
    requires d.WellFormed() && |init| == d.Count()
    ensures |screens| == |init|
    ensures forall i :: 0 <= i < |screens| ==> screens[i] == Elements(d, i)
  {
    screens := init;
    var i := d.Count();
    while i > 0
      invariant 0 <= i <= d.Count() && |screens| == |init|
      invariant forall j :: i <= j < |screens| ==> screens[j] == Elements(d, j)
    {
      i := i - 1;
      screens := screens[i := Elements(d, i)];
    }
  }
}
