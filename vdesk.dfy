/**
 * Virtual-desktop switching as vdesk.c does it (`jbwm_set_vdesk` and the
 * recursive `check_visibility`): every client on the switched screen is
 * either moved to the new desktop and restored (when it is sticky or already
 * there) or hidden; clients on other screens are not touched. Restoring and
 * hiding are collaborators whose code is not part of this model; they are
 * recorded as requests.
 */
module Vdesk {
  import opened Protocol
  import opened ClientRecord
  import Screen
  import Util

  /** Whether `check_visibility` restores `c` when screen `s` switches to `v`. */
  predicate Stays(c: Client, s: nat, v: int) {
    c.screen == s && (c.vdesk == v || Sticky in c.opt)
  }

  /** The record `check_visibility` leaves for `c`: a restored client is moved onto `v`. */
  function Checked(c: Client, s: nat, v: int): (r: Client)
    ensures Stays(c, s, v) ==> r == c.(vdesk := ToVDesk(v))
    ensures !Stays(c, s, v) ==> r == c
  {
    if Stays(c, s, v) then c.(vdesk := ToVDesk(v)) else c
  }

  /** The request `check_visibility` issues for `c`: none for another screen's client. */
  function CheckRequests(c: Client, s: nat, v: int): (r: seq<Request>)
    ensures c.screen != s <==> r == []
    ensures Stays(c, s, v) ==> r == [RestoreClient(c.window)]
    ensures c.screen == s && !Stays(c, s, v) ==> r == [HideClient(c.window)]
  {
    if c.screen != s then []
    else if c.vdesk == v || Sticky in c.opt then [RestoreClient(c.window)]
    else [HideClient(c.window)]
  }

  /** The records after `check_visibility` over `cs`, node by node. */
  function CheckedAll(cs: seq<Client>, s: nat, v: int): (r: seq<Client>)
    ensures |r| == |cs|
    ensures forall i :: 0 <= i < |cs| ==> r[i] == Checked(cs[i], s, v)
  {
    if cs == [] then [] else [Checked(cs[0], s, v)] + CheckedAll(cs[1..], s, v)
  }

  /** The requests of `check_visibility` over `cs`, from the head to the tail. */
  function VisibilityLog(cs: seq<Client>, s: nat, v: int): seq<Request> {
    if cs == [] then [] else CheckRequests(cs[0], s, v) + VisibilityLog(cs[1..], s, v)
  }

  /**
   * `check_visibility(s, c, v)` from the node at `k` on: handle that node,
   * then recur on its successor; the recursion stops at the end of the list.
   */
  method CheckVisibility(m: Manager, s: nat, v: Byte, k: nat)
    requires m.Valid() && k <= |m.clients|
    modifies m`clients, m`log
    ensures m.Valid()
    ensures m.clients == old(m.clients)[..k] + CheckedAll(old(m.clients)[k..], s, v)
    ensures m.log == old(m.log) + VisibilityLog(old(m.clients)[k..], s, v)
    decreases |m.clients| - k
  {
    if k == |m.clients| {
      assert m.clients[..k] == m.clients;
      return;
    }
    ghost var cs0, log0 := m.clients, m.log;
    CheckNode(m, s, v, k);
    CheckVisibility(m, s, v, k + 1);
    CheckedAllStep(cs0, s, v, k);
    VisibilityLogStep(cs0, s, v, k);
    Util.AppendAssoc(log0, CheckRequests(cs0[k], s, v), VisibilityLog(cs0[k + 1..], s, v));
  }

  /** The body of `check_visibility` for the node at `k`. */
  method CheckNode(m: Manager, s: nat, v: Byte, k: nat)
    requires m.Valid() && k < |m.clients|
    modifies m`clients, m`log
    ensures m.Valid()
    ensures m.clients == old(m.clients)[k := Checked(old(m.clients[k]), s, v)]
    ensures m.log == old(m.log) + CheckRequests(old(m.clients[k]), s, v)
  {
    var c := m.clients[k];
    if c.screen == s {
      if c.vdesk == v || Sticky in c.opt {
        SetClient(m, k, c.(vdesk := ToVDesk(v)));
        m.log := m.log + [RestoreClient(c.window)];
      } else {
        m.log := m.log + [HideClient(c.window)];
      }
    } else {
      assert m.clients == m.clients[k := c];
    }
  }

  /** Checking the node at `k` and then the rest is checking from `k` on. */
  lemma CheckedAllStep(cs: seq<Client>, s: nat, v: int, k: nat)
    requires k < |cs|
    ensures var cs1 := cs[k := Checked(cs[k], s, v)];
      cs1[..k + 1] + CheckedAll(cs1[k + 1..], s, v) == cs[..k] + CheckedAll(cs[k..], s, v)
  {
    var cs1 := cs[k := Checked(cs[k], s, v)];
    assert cs1[k + 1..] == cs[k + 1..];
    var lhs := cs1[..k + 1] + CheckedAll(cs1[k + 1..], s, v);
    var rhs := cs[..k] + CheckedAll(cs[k..], s, v);
    assert |lhs| == |rhs|;
    forall i | 0 <= i < |lhs|
      ensures lhs[i] == rhs[i]
    {
      if i > k {
        assert cs[k..][i - k] == cs[k + 1..][i - k - 1];
      }
    }
  }

  /** The requests from `k` on are those of node `k` followed by those from `k + 1` on. */
  lemma VisibilityLogStep(cs: seq<Client>, s: nat, v: int, k: nat)
    requires k < |cs|
    ensures VisibilityLog(cs[k..], s, v) == CheckRequests(cs[k], s, v) + VisibilityLog(cs[k + 1..], s, v)
  {
    assert cs[k..][1..] == cs[k + 1..];
  }

  /**
   * `jbwm_set_vdesk(d, s, v)`: nothing happens, and the current desktop is
   * returned, when `v` is the current desktop or above JBWM_MAX_DESKTOPS (so
   * JBWM_MAX_DESKTOPS itself is accepted); otherwise every client is checked
   * from the head, the screen's desktop becomes `v`, and `_NET_CURRENT_DESKTOP`
   * of the screen's root is set to `v`.
   */
  method SetVdesk(m: Manager, s: nat, v: Byte) returns (r: Byte)
    requires m.Valid() && s < |m.screens|
    modifies m`clients, m`log, m`props, m`screens
    ensures m.Valid()
    ensures var cur := old(m.screens[s].vdesk);
      (v == cur || v > MaxDesktops) ==>
        && r == cur && m.clients == old(m.clients) && m.log == old(m.log)
        && m.props == old(m.props) && m.screens == old(m.screens)
    ensures var cur := old(m.screens[s].vdesk);
      !(v == cur || v > MaxDesktops) ==>
        && r == v
        && m.screens == old(m.screens)[s := old(m.screens[s]).(vdesk := v)]
        && m.clients == CheckedAll(old(m.clients), s, v)
        && m.log == old(m.log) + VisibilityLog(old(m.clients), s, v)
        && m.props == old(m.props)[(old(m.screens[s].root), NetCurrentDesktop) := [v as int]]
  {
    if v == m.screens[s].vdesk || v > MaxDesktops {
      return m.screens[s].vdesk;
    }
    SwitchTo(m, s, v);
    r := v;
  }

  /** The switch itself: every client checked from the head, then the desktop and the root property set. */
  method SwitchTo(m: Manager, s: nat, v: Byte)
    requires m.Valid() && s < |m.screens|
    modifies m`clients, m`log, m`props, m`screens
    ensures m.Valid()
    ensures m.screens == old(m.screens)[s := old(m.screens[s]).(vdesk := v)]
    ensures m.clients == CheckedAll(old(m.clients), s, v)
    ensures m.log == old(m.log) + VisibilityLog(old(m.clients), s, v)
    ensures m.props == old(m.props)[(old(m.screens[s].root), NetCurrentDesktop) := [v as int]]
  {
    var root := m.screens[s].root;
    CheckAll(m, s, v);
    SetScreenDesktop(m, s, v);
    m.props := m.props[(root, NetCurrentDesktop) := [v as int]];
  }

  /** `check_visibility` from the head of the list. */
  method CheckAll(m: Manager, s: nat, v: Byte)
    requires m.Valid()
    modifies m`clients, m`log
    ensures m.Valid()
    ensures m.clients == CheckedAll(old(m.clients), s, v)
    ensures m.log == old(m.log) + VisibilityLog(old(m.clients), s, v)
  {
    ghost var cs0 := m.clients;
    CheckVisibility(m, s, v, 0);
    FromHead(cs0, s, v);
  }

  /** Checking from node 0 is checking the whole list. */
  lemma FromHead(cs: seq<Client>, s: nat, v: int)
    ensures cs[..0] + CheckedAll(cs[0..], s, v) == CheckedAll(cs, s, v)
    ensures VisibilityLog(cs[0..], s, v) == VisibilityLog(cs, s, v)
  {
    assert cs[0..] == cs;
  }

  /** The requests for a list that is split in two are those of the first part, then those of the second. */
  lemma {:induction false} VisibilityLogAppend(a: seq<Client>, b: seq<Client>, s: nat, v: int)
    ensures VisibilityLog(a + b, s, v) == VisibilityLog(a, s, v) + VisibilityLog(b, s, v)
  {
    if a == [] {
      assert a + b == b;
    } else {
      assert (a + b)[1..] == a[1..] + b;
      VisibilityLogAppend(a[1..], b, s, v);
    }
  }

  /** A window is hidden exactly when one of the clients carrying it is on the screen and neither sticky nor on `v`. */
  lemma {:induction false} HiddenExactly(cs: seq<Client>, s: nat, v: int, w: Window)
    ensures HideClient(w) in VisibilityLog(cs, s, v) <==>
      exists i :: 0 <= i < |cs| && cs[i].window == w && cs[i].screen == s && !Stays(cs[i], s, v)
  {
    if cs != [] {
      HiddenExactly(cs[1..], s, v, w);
      if exists i :: 0 <= i < |cs| && cs[i].window == w && cs[i].screen == s && !Stays(cs[i], s, v) {
        var i :| 0 <= i < |cs| && cs[i].window == w && cs[i].screen == s && !Stays(cs[i], s, v);
        if i > 0 {
          assert cs[1..][i - 1] == cs[i];
        }
      }
      if HideClient(w) in VisibilityLog(cs[1..], s, v) {
        var i :| 0 <= i < |cs[1..]| && cs[1..][i].window == w && cs[1..][i].screen == s && !Stays(cs[1..][i], s, v);
        assert cs[i + 1] == cs[1..][i];
      }
    }
  }

  /** Every request of the switch names a client of the switched screen, and there is one per such client. */
  lemma {:induction false} OnlyTheScreen(cs: seq<Client>, s: nat, v: int)
    ensures |VisibilityLog(cs, s, v)| == |OnScreen(cs, s)|
    ensures forall i :: 0 <= i < |cs| && cs[i].screen != s ==> CheckRequests(cs[i], s, v) == []
  {
    if cs != [] {
      OnlyTheScreen(cs[1..], s, v);
    }
  }

  /** The clients of screen `s`, in list order. */
  function OnScreen(cs: seq<Client>, s: nat): (r: seq<Client>)
    ensures |r| <= |cs|
  {
    if cs == [] then [] else (if cs[0].screen == s then [cs[0]] else []) + OnScreen(cs[1..], s)
  }

  /**
   * The two revisions of desktop switching disagree on a client of the
   * switched screen that is on neither the old nor the new desktop:
   * screen.c's `switch_vdesk` leaves it alone, vdesk.c hides it. They also
   * disagree on a sticky client of another screen: screen.c shows it, vdesk.c
   * does not touch it.
   */
  lemma RevisionsDiffer(c: Client, s: nat, cur: int, v: int)
    ensures c.screen == s && Sticky !in c.opt && c.vdesk != cur && c.vdesk != v ==>
      Screen.SwitchAction(c, s, cur, v) == Screen.Keep && CheckRequests(c, s, v) == [HideClient(c.window)]
    ensures c.screen != s && Sticky in c.opt ==>
      Screen.SwitchAction(c, s, cur, v) == Screen.Show && CheckRequests(c, s, v) == []
  {
  }
}
