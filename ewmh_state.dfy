/**
 * The `_NET_WM_STATE` property of ewmh.c as a list of atoms (the
 * "Application Window Properties" of the Extended Window Manager Hints): the
 * add, remove and query operations, and the `_NET_WM_STATE` client message
 * with its per-state callbacks.
 */
module EwmhState {
  import opened Protocol
  import opened ClientRecord

  type Props = map<(Window, Atom), seq<int>>

  /** The `_NET_WM_STATE` list of `w`, None when the property is absent. */
  function StateOf(props: Props, w: Window): Option<seq<int>> {
    if (w, NetWmState) in props then Some(props[(w, NetWmState)]) else None
  }

  /** Some entry of `s` equals `a`, searching from the end as `ewmh_get_state` does. */
  predicate Contains(s: seq<int>, a: int) {
    s != [] && (s[|s| - 1] == a || Contains(s[..|s| - 1], a))
  }

  lemma {:induction false} ContainsIsMembership(s: seq<int>, a: int)
    ensures Contains(s, a) <==> a in s
  {
    if s != [] {
      ContainsIsMembership(s[..|s| - 1], a);
      assert s == s[..|s| - 1] + [s[|s| - 1]];
    }
  }

  /** `ewmh_get_state` as a question about the property store: the property exists and lists the atom. */
  predicate HasState(props: Props, w: Window, a: Atom) {
    (w, NetWmState) in props && Contains(props[(w, NetWmState)], a)
  }

  /** The list after `ewmh_add_state`: the atom in front (PropModePrepend), nothing merged. */
  function Prepended(p: Option<seq<int>>, a: Atom): (r: seq<int>)
    ensures |r| == |p.GetOr([])| + 1 && r[0] == a && r[1..] == p.GetOr([])
  {
    [a] + p.GetOr([])
  }

  /** The list after `ewmh_remove_state`: every entry equal to `a` overwritten with 0, walking from the end. */
  function Zeroed(s: seq<int>, a: Atom): (r: seq<int>)
    ensures |r| == |s|
    ensures forall i :: 0 <= i < |s| ==> r[i] == (if s[i] == a then 0 else s[i])
  {
    if s == [] then []
    else Zeroed(s[..|s| - 1], a) + [if s[|s| - 1] == a then 0 else s[|s| - 1]]
  }

  /** A non-zero atom is gone after zeroing; any other atom keeps its count. */
  lemma {:induction false} ZeroedCounts(s: seq<int>, a: Atom, b: int)
    requires a != 0 && b != 0
    ensures multiset(Zeroed(s, a))[b] == if b == a then 0 else multiset(s)[b]
  {
    if s != [] {
      var t, x := s[..|s| - 1], s[|s| - 1];
      ZeroedCounts(t, a, b);
      assert s == t + [x];
      var y := if x == a then 0 else x;
      assert Zeroed(s, a) == Zeroed(t, a) + [y];
      assert multiset(Zeroed(s, a))[b] == multiset(Zeroed(t, a))[b] + multiset([y])[b];
      assert multiset(s)[b] == multiset(t)[b] + multiset([x])[b];
    }
  }

  /** Adding never merges: each add contributes one more copy of the atom. */
  lemma PrependedCounts(p: Option<seq<int>>, a: Atom, b: int)
    ensures multiset(Prepended(p, a))[b] == multiset(p.GetOr([]))[b] + (if b == a then 1 else 0)
  {
    assert Prepended(p, a) == [a] + p.GetOr([]);
  }

  /** `ewmh_get_state(w, state)`: a search of the list from its end; false when the property is absent. */
  method GetState(m: Manager, w: Window, state: Atom) returns (found: bool)
    ensures found == HasState(m.props, w, state)
  {
    if (w, NetWmState) !in m.props {
      return false;
    }
    var a := m.props[(w, NetWmState)];
    var n := |a|;
    found := false;
    assert a[..n] == a;
    while n > 0
      invariant 0 <= n <= |a|
      invariant Contains(a, state) == Contains(a[..n], state)
    {
      n := n - 1;
      assert a[..n + 1][..n] == a[..n];
      if a[n] == state {
        found := true;
        return;
      }
    }
  }

  /** `ewmh_add_state(w, state)`: prepend the atom, creating the property when absent. */
  method AddState(m: Manager, w: Window, state: Atom)
    modifies m`props
    ensures m.props == old(m.props)[(w, NetWmState) := Prepended(StateOf(old(m.props), w), state)]
  {
    m.props := m.props[(w, NetWmState) := Prepended(StateOf(m.props, w), state)];
  }

  /**
   * `ewmh_remove_state(w, state)`: overwrite matching entries with 0 in a copy
   * of the list and write the copy back; an absent property is left alone.
   */
  method RemoveState(m: Manager, w: Window, state: Atom)
    modifies m`props
    ensures (w, NetWmState) !in old(m.props) ==> m.props == old(m.props)
    ensures (w, NetWmState) in old(m.props) ==>
      m.props == old(m.props)[(w, NetWmState) := Zeroed(old(m.props[(w, NetWmState)]), state)]
  {
    if (w, NetWmState) !in m.props {
      return;
    }
    var s := m.props[(w, NetWmState)];
    var a := new int[|s|](i => if 0 <= i < |s| then s[i] else 0);
    var n := a.Length;
    while n > 0
      modifies a
      invariant 0 <= n <= a.Length
      invariant a[..n] == s[..n]
      invariant a[n..] == Zeroed(s, state)[n..]
    {
      n := n - 1;
      if a[n] == state {
        a[n] := 0;
      }
    }
    assert a[..] == a[0..] && Zeroed(s, state) == Zeroed(s, state)[0..];
    m.props := m.props[(w, NetWmState) := a[..]];
  }

  /** What `check_state` does to the property. */
  datatype StateWrite = NoWrite | AddEntry | ZeroEntries

  /** The decision of `check_state`: the callback's add/remove argument and the property write. */
  datatype StateDecision = StateDecision(add: bool, write: StateWrite)

  /**
   * `check_state`'s action choice as written: 1 adds, 2 toggles, 0 and any
   * other value remove; a toggle of a present state reports "remove" to the
   * callback but leaves the property as it is.
   */
  function StateActionAsWritten(action: int, present: bool): (d: StateDecision)
    ensures action == 1 ==> d == StateDecision(true, AddEntry)
    ensures action != 1 && action != 2 ==> d == StateDecision(false, ZeroEntries)
    ensures action == 2 ==> d.add == !present && (d.write == AddEntry <==> !present) && d.write != ZeroEntries
  {
    if action == 1 then StateDecision(true, AddEntry)
    else if action == 2 then StateDecision(!present, if !present then AddEntry else NoWrite)
    else StateDecision(false, ZeroEntries)
  }

  /** `check_state`'s action choice with the toggle completed: a present state is removed. */
  function StateAction(action: int, present: bool): (d: StateDecision)
    ensures d.add <==> d.write == AddEntry
    ensures d.write != NoWrite
    ensures action == 2 ==> d.add == !present
    ensures action != 2 ==> d.add == (action == 1)
  {
    if action == 1 then StateDecision(true, AddEntry)
    else if action == 2 then StateDecision(!present, if !present then AddEntry else ZeroEntries)
    else StateDecision(false, ZeroEntries)
  }

  /** The property store after a write of `state` to `w`'s list. */
  function Written(props: Props, w: Window, state: Atom, write: StateWrite): Props {
    match write
    case NoWrite => props
    case AddEntry => props[(w, NetWmState) := Prepended(StateOf(props, w), state)]
    case ZeroEntries =>
      if (w, NetWmState) in props then props[(w, NetWmState) := Zeroed(props[(w, NetWmState)], state)]
      else props
  }

  /** A write changes the presence of its own atom only, and only on its own window. */
  lemma {:induction false} WrittenPresence(props: Props, w: Window, state: Atom, write: StateWrite, x: Window, b: Atom)
    requires state != 0 && b != 0
    ensures HasState(Written(props, w, state, write), x, b) ==
      if x == w && b == state && write != NoWrite then write == AddEntry else HasState(props, x, b)
  {
    if write == AddEntry && x == w {
      ContainsIsMembership(Prepended(StateOf(props, w), state), b);
      if (w, NetWmState) in props {
        ContainsIsMembership(props[(w, NetWmState)], b);
        assert Prepended(StateOf(props, w), state) == [state] + props[(w, NetWmState)];
      }
    }
    if write == ZeroEntries && (w, NetWmState) in props && x == w {
      var s := props[(w, NetWmState)];
      ContainsIsMembership(s, b);
      ContainsIsMembership(Zeroed(s, state), b);
      ZeroedCounts(s, state, b);
      assert (b in Zeroed(s, state)) == (multiset(Zeroed(s, state))[b] > 0);
      assert (b in s) == (multiset(s)[b] > 0);
    }
  }

  /** With the completed toggle, toggling flips the state's presence. */
  lemma ToggleFlips(props: Props, w: Window, state: Atom)
    requires state != 0
    ensures var d := StateAction(2, HasState(props, w, state));
      HasState(Written(props, w, state, d.write), w, state) == !HasState(props, w, state)
  {
    var d := StateAction(2, HasState(props, w, state));
    WrittenPresence(props, w, state, d.write, w, state);
  }

  /** As written, toggling a present state leaves it present although the callback was told to remove it. */
  lemma ToggleKeepsPresentStateAsWritten(props: Props, w: Window, state: Atom)
    requires state != 0 && HasState(props, w, state)
    ensures var d := StateActionAsWritten(2, true);
      !d.add && HasState(Written(props, w, state, d.write), w, state)
  {
  }

  /** Whenever the toggle adds, both versions agree; they differ exactly on a present state. */
  lemma ToggleVersionsAgreeOnAbsent(action: int, present: bool)
    ensures (StateAction(action, present) == StateActionAsWritten(action, present)) <==> !(action == 2 && present)
  {
  }

  /** The callbacks `handle_wm_state_changes` passes to `check_state`. */
  datatype Callback = AboveCb | BelowCb | SkipPagerCb | FullscreenCb

  /**
   * What callback `cb`, told to add (or remove) its state, does for the event
   * window `w` and the client at `c` (None when the window is not managed),
   * as a pair of the new registry and the requests issued so far. Only the
   * fullscreen callback changes the registry, and then only the maximized
   * flag of the client at `c`, which ends equal to `add`.
   */
  function CallbackOutcome(cb: Callback, w: Window, add: bool, c: Option<nat>, cs: seq<Client>, log: seq<Request>)
    : (r: (seq<Client>, seq<Request>))
    requires c.Some? ==> c.value < |cs|
    ensures |r.0| == |cs| && log <= r.1
    ensures cb != FullscreenCb || c.None? ==> r.0 == cs
    ensures forall j :: 0 <= j < |cs| && c != Some(j) ==> r.0[j] == cs[j]
    ensures c.Some? ==> SameButMaximized(cs[c.value], r.0[c.value])
    ensures cb == FullscreenCb && c.Some? ==> (Fullscreen in r.0[c.value].opt <==> add)
  {
    match cb
    case AboveCb => (cs, log + (if add then [RaiseWindow(w)] else []))
    case BelowCb => (cs, log + (if add then [LowerWindow(w)] else []))
    case SkipPagerCb =>
      (cs, log + (if c.None? then [] else if add then [AddSticky(cs[c.value].window)] else [RemoveSticky(cs[c.value].window)]))
    case FullscreenCb =>
      if c.None? then (cs, log)
      else
        var o := cs[c.value];
        (cs[c.value := o.(opt := Assign(o.opt, Fullscreen, add))],
         log + (if add != (Fullscreen in o.opt) then [Maximize(o.window)] else []))
  }

  /** Client `d` is client `c` with at most its maximized flag changed. */
  predicate SameButMaximized(c: Client, d: Client) {
    d == c.(opt := d.opt) && d.opt - {Fullscreen} == c.opt - {Fullscreen}
  }

  /**
   * Runs one callback for the event window `w` and the client at `c` (None
   * when the window is not managed): above/below raise/lower the window on
   * add; skip-pager makes the client sticky or not; the fullscreen callback
   * calls `maximize` only when the maximized flag differs from `add`.
   */
  method RunCallback(m: Manager, cb: Callback, w: Window, add: bool, c: Option<nat>)
    requires m.Valid() && (c.Some? ==> c.value < |m.clients|)
    modifies m`clients, m`log
    ensures m.Valid() && |m.clients| == |old(m.clients)|
    ensures cb == AboveCb ==> m.clients == old(m.clients) && m.log == old(m.log) + (if add then [RaiseWindow(w)] else [])
    ensures cb == BelowCb ==> m.clients == old(m.clients) && m.log == old(m.log) + (if add then [LowerWindow(w)] else [])
    ensures cb == SkipPagerCb ==> (m.clients == old(m.clients) && m.log == old(m.log) +
      (if c.None? then [] else if add then [AddSticky(old(m.clients[c.value].window))] else [RemoveSticky(old(m.clients[c.value].window))]))
    ensures cb == FullscreenCb && c.None? ==> m.clients == old(m.clients) && m.log == old(m.log)
    ensures cb == FullscreenCb && c.Some? ==>
      var o := old(m.clients[c.value]);
      && m.clients == old(m.clients)[c.value := o.(opt := Assign(o.opt, Fullscreen, add))]
      && m.log == old(m.log) + (if add != (Fullscreen in o.opt) then [Maximize(o.window)] else [])
  {
    match cb
    case AboveCb =>
      if add { m.log := m.log + [RaiseWindow(w)]; }
    case BelowCb =>
      if add { m.log := m.log + [LowerWindow(w)]; }
    case SkipPagerCb =>
      if c.Some? {
        var cw := m.clients[c.value].window;
        if add { m.log := m.log + [AddSticky(cw)]; } else { m.log := m.log + [RemoveSticky(cw)]; }
      }
    case FullscreenCb =>
      if c.Some? {
        var isMax := Fullscreen in m.clients[c.value].opt;
        if add != isMax {
          ToggleMaximize(m, c.value);
        } else {
          assert m.clients[c.value].opt == Assign(m.clients[c.value].opt, Fullscreen, add);
          assert m.clients == m.clients[c.value := m.clients[c.value]];
        }
      }
  }

  /**
   * `check_state(e, state, data, cb)`: when `state` is named in `l[1]` or
   * `l[2]`, run the callback with the decided add/remove and then write the
   * property of the event window.
   */
  method CheckState(m: Manager, e: ClientMessage, state: Atom, cb: Callback, c: Option<nat>)
    requires m.Valid() && (c.Some? ==> c.value < |m.clients|)
    requires state != 0
    modifies m`clients, m`log, m`props
    ensures m.Valid()
    ensures StoreOf(m) == Checked(old(StoreOf(m)), e, state, cb, c)
  {
    if !(e.l1 == state || e.l2 == state) {
      return;
    }
    var w := e.window;
    var d := DecideState(m, e.l0, w, state);
    RunCallback(m, cb, w, d.add, c);
    WriteState(m, w, state, d.write);
  }

  /** The `switch` on the action in `check_state`, with the toggle completed. */
  method DecideState(m: Manager, action: int, w: Window, state: Atom) returns (d: StateDecision)
    ensures d == StateAction(action, HasState(m.props, w, state))
  {
    if action == 1 {
      d := StateDecision(true, AddEntry);
    } else if action == 2 {
      var present := GetState(m, w, state);
      d := StateDecision(!present, if !present then AddEntry else ZeroEntries);
    } else {
      d := StateDecision(false, ZeroEntries);
    }
  }

  /** The property write that follows the callback in `check_state`. */
  method WriteState(m: Manager, w: Window, state: Atom, write: StateWrite)
    requires write != NoWrite
    modifies m`props
    ensures m.props == Written(old(m.props), w, state, write)
  {
    if write == AddEntry {
      AddState(m, w, state);
    } else {
      RemoveState(m, w, state);
    }
  }

  /** `WrittenPresence` for every window and every non-zero atom at once. */
  lemma WrittenPresenceAll(props: Props, w: Window, state: Atom, write: StateWrite)
    requires state != 0
    ensures forall x, b :: b != 0 ==> (HasState(Written(props, w, state, write), x, b) ==
      if x == w && b == state && write != NoWrite then write == AddEntry else HasState(props, x, b))
  {
    forall x, b | b != 0
      ensures HasState(Written(props, w, state, write), x, b) ==
        if x == w && b == state && write != NoWrite then write == AddEntry else HasState(props, x, b)
    {
      WrittenPresence(props, w, state, write, x, b);
    }
  }

  /** The six states `handle_wm_state_changes` examines, in its order. */
  const HandledStates: seq<Atom> := [NetWmStateAbove, NetWmStateBelow, NetWmStateSkipPager,
    NetWmStateFullscreen, NetWmStateMaximizedHorz, NetWmStateMaximizedVert]

  /**
   * `handle_wm_state_changes(e, c)` on store `st`: `check_state` for above,
   * below, skip-pager, and fullscreen and both maximized states (all three
   * with the fullscreen callback), in that order. Only the event window's
   * `_NET_WM_STATE` changes among the properties; each handled state named
   * in the message ends up present exactly when its decision says add, every
   * other state keeps its presence; the registry changes only when one of the
   * three fullscreen states is named, and then only in the maximized flag of
   * the client, which follows the last of them the message names.
   */
  function WmStateChanged(st: StateStore, e: ClientMessage, c: Option<nat>): (r: StateStore)
    requires c.Some? ==> c.value < |st.clients|
    ensures |r.clients| == |st.clients| && st.log <= r.log
  {
    var s1 := Checked(st, e, NetWmStateAbove, AboveCb, c);
    var s2 := Checked(s1, e, NetWmStateBelow, BelowCb, c);
    var s3 := Checked(s2, e, NetWmStateSkipPager, SkipPagerCb, c);
    var s4 := Checked(s3, e, NetWmStateFullscreen, FullscreenCb, c);
    var s5 := Checked(s4, e, NetWmStateMaximizedHorz, FullscreenCb, c);
    Checked(s5, e, NetWmStateMaximizedVert, FullscreenCb, c)
  }

  /**
   * Among the properties, `handle_wm_state_changes` changes only the event
   * window's `_NET_WM_STATE`; in it each handled state named in the message
   * ends up present exactly when its decision says add, and every other state
   * keeps its presence.
   */
  lemma WmStateChangedProps(st: StateStore, e: ClientMessage, c: Option<nat>)
    requires c.Some? ==> c.value < |st.clients|
    ensures var r := WmStateChanged(st, e, c);
      && OnlyStateOf(st.props, r.props, e.window)
      && (forall x, b :: b != 0 && (x != e.window || b !in HandledStates) ==>
            HasState(r.props, x, b) == HasState(st.props, x, b))
      && (forall b :: b in HandledStates ==> StepOutcome(st.props, r.props, e, b))
  {
    var s1 := Checked(st, e, NetWmStateAbove, AboveCb, c);
    var s2 := Checked(s1, e, NetWmStateBelow, BelowCb, c);
    var s3 := Checked(s2, e, NetWmStateSkipPager, SkipPagerCb, c);
    var s4 := Checked(s3, e, NetWmStateFullscreen, FullscreenCb, c);
    var s5 := Checked(s4, e, NetWmStateMaximizedHorz, FullscreenCb, c);
    var s6 := Checked(s5, e, NetWmStateMaximizedVert, FullscreenCb, c);
    CheckedProps(st, e, NetWmStateAbove, AboveCb, c);
    CheckedProps(s1, e, NetWmStateBelow, BelowCb, c);
    CheckedProps(s2, e, NetWmStateSkipPager, SkipPagerCb, c);
    CheckedProps(s3, e, NetWmStateFullscreen, FullscreenCb, c);
    CheckedProps(s4, e, NetWmStateMaximizedHorz, FullscreenCb, c);
    CheckedProps(s5, e, NetWmStateMaximizedVert, FullscreenCb, c);
    PresenceAfterAll(st.props, s1.props, s2.props, s3.props, s4.props, s5.props, s6.props, e);
    OnlyStateOfChain(st.props, s1.props, s2.props, s3.props, e.window);
    OnlyStateOfChain(st.props, s3.props, s4.props, s5.props, e.window);
    OnlyStateOfChain(st.props, s5.props, s6.props, s6.props, e.window);
    OtherWindowsKeepStates(st.props, s6.props, e.window);
  }

  /** Changes confined to `w`'s `_NET_WM_STATE` compose. */
  lemma OnlyStateOfChain(p: Props, q: Props, r: Props, t: Props, w: Window)
    requires OnlyStateOf(p, q, w) && OnlyStateOf(q, r, w) && OnlyStateOf(r, t, w)
    ensures OnlyStateOf(p, t, w)
  {
  }

  /**
   * The registry changes only when one of the three fullscreen states is
   * named, and then only in the maximized flag of the event window's client.
   */
  lemma WmStateChangedClients(st: StateStore, e: ClientMessage, c: Option<nat>)
    requires c.Some? ==> c.value < |st.clients|
    ensures var r := WmStateChanged(st, e, c);
      && (!NamesAny(e, [NetWmStateFullscreen, NetWmStateMaximizedHorz, NetWmStateMaximizedVert]) ==>
            r.clients == st.clients)
      && (forall j :: 0 <= j < |st.clients| && c != Some(j) ==> r.clients[j] == st.clients[j])
      && (c.Some? ==> SameButMaximized(st.clients[c.value], r.clients[c.value]))
  {
    var s1 := Checked(st, e, NetWmStateAbove, AboveCb, c);
    var s2 := Checked(s1, e, NetWmStateBelow, BelowCb, c);
    var s3 := Checked(s2, e, NetWmStateSkipPager, SkipPagerCb, c);
    var s4 := Checked(s3, e, NetWmStateFullscreen, FullscreenCb, c);
    var s5 := Checked(s4, e, NetWmStateMaximizedHorz, FullscreenCb, c);
    var s6 := Checked(s5, e, NetWmStateMaximizedVert, FullscreenCb, c);
    CheckedClients(st, e, NetWmStateAbove, AboveCb, c);
    CheckedClients(s1, e, NetWmStateBelow, BelowCb, c);
    CheckedClients(s2, e, NetWmStateSkipPager, SkipPagerCb, c);
    CheckedClients(s3, e, NetWmStateFullscreen, FullscreenCb, c);
    CheckedClients(s4, e, NetWmStateMaximizedHorz, FullscreenCb, c);
    CheckedClients(s5, e, NetWmStateMaximizedVert, FullscreenCb, c);
    assert s3.clients == st.clients;
    if c.Some? {
      var i := c.value;
      assert SameButMaximized(st.clients[i], s4.clients[i]);
      assert SameButMaximized(s4.clients[i], s5.clients[i]);
      assert SameButMaximized(s5.clients[i], s6.clients[i]);
    }
  }

  /**
   * When the message names `_NET_WM_STATE_MAXIMIZED_VERT`, the last of the
   * three fullscreen states, the client's maximized flag ends as that step's
   * decision says.
   */
  lemma WmStateChangedMaximized(st: StateStore, e: ClientMessage, c: Option<nat>)
    requires c.Some? ==> c.value < |st.clients|
    ensures var r := WmStateChanged(st, e, c);
      c.Some? && NamesAny(e, [NetWmStateMaximizedVert]) ==>
        (Fullscreen in r.clients[c.value].opt <==>
           StateAction(e.l0, HasState(st.props, e.window, NetWmStateMaximizedVert)).add)
  {
    var s1 := Checked(st, e, NetWmStateAbove, AboveCb, c);
    var s2 := Checked(s1, e, NetWmStateBelow, BelowCb, c);
    var s3 := Checked(s2, e, NetWmStateSkipPager, SkipPagerCb, c);
    var s4 := Checked(s3, e, NetWmStateFullscreen, FullscreenCb, c);
    var s5 := Checked(s4, e, NetWmStateMaximizedHorz, FullscreenCb, c);
    CheckedProps(st, e, NetWmStateAbove, AboveCb, c);
    CheckedProps(s1, e, NetWmStateBelow, BelowCb, c);
    CheckedProps(s2, e, NetWmStateSkipPager, SkipPagerCb, c);
    CheckedProps(s3, e, NetWmStateFullscreen, FullscreenCb, c);
    CheckedProps(s4, e, NetWmStateMaximizedHorz, FullscreenCb, c);
    CheckedClients(s5, e, NetWmStateMaximizedVert, FullscreenCb, c);
    var b := NetWmStateMaximizedVert;
    assert Touches(st.props, s1.props, e, NetWmStateAbove, b);
    assert Touches(s1.props, s2.props, e, NetWmStateBelow, b);
    assert Touches(s2.props, s3.props, e, NetWmStateSkipPager, b);
    assert Touches(s3.props, s4.props, e, NetWmStateFullscreen, b);
    assert Touches(s4.props, s5.props, e, NetWmStateMaximizedHorz, b);
  }

  /** Whether the message names one of `states` in `l[1]` or `l[2]`. */
  predicate NamesAny(e: ClientMessage, states: seq<Atom>) {
    e.l1 in states || e.l2 in states
  }

  /** `q` differs from `p` at most in `w`'s `_NET_WM_STATE`. */
  ghost predicate OnlyStateOf(p: Props, q: Props, w: Window) {
    forall k :: k != (w, NetWmState) ==> (k in q <==> k in p) && (k in p ==> q[k] == p[k])
  }

  /** A change confined to `w`'s `_NET_WM_STATE` leaves every other window's states as they were. */
  lemma OtherWindowsKeepStates(p: Props, q: Props, w: Window)
    requires OnlyStateOf(p, q, w)
    ensures forall x, b :: x != w ==> HasState(q, x, b) == HasState(p, x, b)
  {
    forall x, b | x != w
      ensures HasState(q, x, b) == HasState(p, x, b)
    {
      assert (x, NetWmState) != (w, NetWmState);
    }
  }

  /**
   * `check_state(e, state, data, cb)` on store `st`: nothing unless `state`
   * is named in `l[1]` or `l[2]`; then the callback runs with the decided
   * add/remove, and the event window's `_NET_WM_STATE` is written. No other
   * property changes, and the state ends present exactly when the decision
   * says add.
   */
  function Checked(st: StateStore, e: ClientMessage, state: Atom, cb: Callback, c: Option<nat>): (r: StateStore)
    requires state != 0 && (c.Some? ==> c.value < |st.clients|)
    ensures |r.clients| == |st.clients| && st.log <= r.log
  {
    if !(e.l1 == state || e.l2 == state) then st
    else
      var d := StateAction(e.l0, HasState(st.props, e.window, state));
      var k := CallbackOutcome(cb, e.window, d.add, c, st.clients, st.log);
      StateStore(Written(st.props, e.window, state, d.write), k.0, k.1)
  }

  /**
   * One `check_state` step changes no property but the event window's
   * `_NET_WM_STATE`, in which `state` ends present exactly when the decision
   * says add and every other state keeps its presence; a step for a state the
   * message does not name changes nothing.
   */
  lemma CheckedProps(st: StateStore, e: ClientMessage, state: Atom, cb: Callback, c: Option<nat>)
    requires state != 0 && (c.Some? ==> c.value < |st.clients|)
    ensures var r := Checked(st, e, state, cb, c);
      && OnlyStateOf(st.props, r.props, e.window)
      && (forall b :: b != 0 ==> Touches(st.props, r.props, e, state, b))
      && (!(e.l1 == state || e.l2 == state) ==> r == st)
  {
    if e.l1 == state || e.l2 == state {
      var d := StateAction(e.l0, HasState(st.props, e.window, state));
      WrittenPresenceAll(st.props, e.window, state, d.write);
    }
  }

  /**
   * One `check_state` step changes no client but the one at `c`, and that one
   * only in its maximized flag, which the fullscreen callback sets to the
   * decision.
   */
  lemma CheckedClients(st: StateStore, e: ClientMessage, state: Atom, cb: Callback, c: Option<nat>)
    requires state != 0 && (c.Some? ==> c.value < |st.clients|)
    ensures var r := Checked(st, e, state, cb, c);
      && (cb != FullscreenCb || c.None? || !(e.l1 == state || e.l2 == state) ==> r.clients == st.clients)
      && (forall j :: 0 <= j < |st.clients| && c != Some(j) ==> r.clients[j] == st.clients[j])
      && (c.Some? ==> SameButMaximized(st.clients[c.value], r.clients[c.value]))
      && (cb == FullscreenCb && c.Some? && (e.l1 == state || e.l2 == state) ==>
            (Fullscreen in r.clients[c.value].opt <==> StateAction(e.l0, HasState(st.props, e.window, state)).add))
  {
  }

  /** The part of the manager `check_state` changes: the properties, the registry and the requests issued. */
  datatype StateStore = StateStore(props: Props, clients: seq<Client>, log: seq<Request>)

  /** The store of manager `m`. */
  function StoreOf(m: Manager): (r: StateStore)
    reads m`props, m`clients, m`log
    ensures r.props == m.props && r.clients == m.clients && r.log == m.log
  {
    StateStore(m.props, m.clients, m.log)
  }

  /** `handle_wm_state_changes(e, c)`. */
  method HandleWmStateChanges(m: Manager, e: ClientMessage, c: Option<nat>)
    requires m.Valid() && (c.Some? ==> c.value < |m.clients|)
    modifies m`clients, m`log, m`props
    ensures m.Valid()
    ensures StoreOf(m) == WmStateChanged(old(StoreOf(m)), e, c)
  {
    CheckState(m, e, NetWmStateAbove, AboveCb, c);
    CheckState(m, e, NetWmStateBelow, BelowCb, c);
    CheckState(m, e, NetWmStateSkipPager, SkipPagerCb, c);
    CheckState(m, e, NetWmStateFullscreen, FullscreenCb, c);
    CheckState(m, e, NetWmStateMaximizedHorz, FullscreenCb, c);
    CheckState(m, e, NetWmStateMaximizedVert, FullscreenCb, c);
  }

  /** How one `check_state` step for `state` leaves the presence of `b` on the event window. */
  ghost predicate Touches(p: Props, q: Props, e: ClientMessage, state: Atom, b: Atom) {
    HasState(q, e.window, b) ==
      if b == state && (e.l1 == b || e.l2 == b) then StateAction(e.l0, HasState(p, e.window, b)).add
      else HasState(p, e.window, b)
  }

  /** The outcome for one state `b` of the whole message. */
  ghost predicate StepOutcome(p: Props, q: Props, e: ClientMessage, b: Atom) {
    HasState(q, e.window, b) ==
      if e.l1 == b || e.l2 == b then StateAction(e.l0, HasState(p, e.window, b)).add else HasState(p, e.window, b)
  }

  /** Of six steps for six distinct states, only the one for `b` changes its presence. */
  lemma PresenceAfter(p0: Props, p1: Props, p2: Props, p3: Props, p4: Props, p5: Props, p6: Props, e: ClientMessage, b: Atom)
    requires b in HandledStates
    requires Touches(p0, p1, e, NetWmStateAbove, b) && Touches(p1, p2, e, NetWmStateBelow, b)
    requires Touches(p2, p3, e, NetWmStateSkipPager, b) && Touches(p3, p4, e, NetWmStateFullscreen, b)
    requires Touches(p4, p5, e, NetWmStateMaximizedHorz, b) && Touches(p5, p6, e, NetWmStateMaximizedVert, b)
    ensures StepOutcome(p0, p6, e, b)
  {
  }

  /** PresenceAfter for every handled state at once. */
  lemma PresenceAfterAll(p0: Props, p1: Props, p2: Props, p3: Props, p4: Props, p5: Props, p6: Props, e: ClientMessage)
    requires forall b :: b != 0 ==> Touches(p0, p1, e, NetWmStateAbove, b) && Touches(p1, p2, e, NetWmStateBelow, b)
    requires forall b :: b != 0 ==> Touches(p2, p3, e, NetWmStateSkipPager, b) && Touches(p3, p4, e, NetWmStateFullscreen, b)
    requires forall b :: b != 0 ==> Touches(p4, p5, e, NetWmStateMaximizedHorz, b) && Touches(p5, p6, e, NetWmStateMaximizedVert, b)
    ensures forall b :: b in HandledStates ==> StepOutcome(p0, p6, e, b)
    ensures forall b :: b != 0 && b !in HandledStates ==> HasState(p6, e.window, b) == HasState(p0, e.window, b)
  {
    forall b | b in HandledStates
      ensures StepOutcome(p0, p6, e, b)
    {
      PresenceAfter(p0, p1, p2, p3, p4, p5, p6, e, b);
    }
    forall b | b != 0 && b !in HandledStates
      ensures HasState(p6, e.window, b) == HasState(p0, e.window, b)
    {
      assert Touches(p0, p1, e, NetWmStateAbove, b) && Touches(p1, p2, e, NetWmStateBelow, b);
      assert Touches(p2, p3, e, NetWmStateSkipPager, b) && Touches(p3, p4, e, NetWmStateFullscreen, b);
      assert Touches(p4, p5, e, NetWmStateMaximizedHorz, b) && Touches(p5, p6, e, NetWmStateMaximizedVert, b);
    }
  }
}
