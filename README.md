# jbwm core, modelled in Dafny

jbwm is a minimalist X11 window manager. This project models its core:

- the client record and its bit-field ranges;
- the client registry, a list with new clients prepended at the head;
- client creation;
- the event handlers and one step of the main event loop;
- the `_NET_WM_STATE` atom list and the EWMH client messages;
- the gravity-aware geometry of `_NET_MOVERESIZE_WINDOW`;
- interactive move and resize (drag);
- virtual-desktop switching, in both of its revisions;
- Motif hints;
- the title-bar button regions;
- start-up: modifier names, adopting existing windows, per-screen records.

The files come from different revisions of jbwm:

- `events.c` and `ewmh.c` use `ScreenInfo`, `head_client`/`jbwm.head` and `c->flags`.
- `screen.c`, `new.c`, `vdesk.c` and `mwm.c` use `struct JBWMScreen` and `c->opt`.

All of them are modelled over one client record (`ClientRecord.Client`). The flags of the older revision are mapped to options:

- `JB_CLIENT_REMOVE` becomes `Remove`.
- `JB_CLIENT_MAXIMIZED` becomes `Fullscreen`.
- `JB_CLIENT_SHADED` becomes `Shaded`.
- `is_sticky` becomes `Sticky`.

The older revision's `win_gravity_hint` becomes the field `gravityHint`.

The program's global state is one `Manager` object (`client.dfy`). It has these fields:

- the registry `clients`, head first;
- the screen records `screens`;
- `needCleanup`;
- the window properties on the server, `props`, keyed by window and property atom;
- `log`, the requests sent to the X server, oldest first.

Every X call becomes a `Request` appended to `log`, or an update of `props`. What the server reports is an input of the operation that reads it:

- attributes;
- the children of a root;
- the pointer's root;
- events;
- the Motif hints property.

Functions whose code is not part of this model are recorded as requests and not interpreted:

- `make_new_client`
- `select_client`
- `send_wm_delete`
- `update_titlebar`
- `set_shape`
- key handling
- `jbwm_restore_client`
- `jbwm_hide_client`
- `client_to_vdesk`
- `add_sticky` and `remove_sticky`
- `drag`/`sweep`/`shade` as started from a button press
- `unhide`, `moveresize` and `switch_vdesk` as called from events.c: that file belongs to the older revision, whose versions of these functions are not part of this model (screen.c's newer versions are modelled on their own, in `Screen`)

Two of them are also interpreted, because the model's state depends on them:

- `remove_client` is recorded, and is taken to unlink exactly its node from the registry (`Events.RemoveAt`).
- `maximize` is recorded, and is taken to flip the client's maximized flag (`ClientRecord.ToggleMaximize`).

The title bar height `TDIM` is a positive constant whose value is not known. `JBWM_MAX_DESKTOPS` and `DESKTOPS` are 10.

Modules, one per source file: `Protocol` (atoms, requests, masks), `Util` (util.h), `ClientRecord` (JBWMClient.h and the registry), `EwmhState`, `EwmhGeometry` and `Ewmh` (ewmh.c), `Events` (events.c), `NewClient` (new.c), `Screen` (screen.c), `Vdesk` (vdesk.c), `Mwm` (mwm.c), `ButtonEvent` (button_event.c) and `Startup` (jbwm.c).

`events.c` and `button_event.c` are modelled for the build with `USE_TBAR` and without `USE_CMAP` and `USE_SHAPE`. `screen.c` and `new.c` are modelled with EWMH.

## Model

| member | source | states |
|---|---|---|
| Util.Max | util.h:8 | the result is at least each argument and is one of them |
| Util.Min | util.h:12 | the result is at most each argument and is one of them |
| Util.Limit | util.h:15 | the result is at least `min`; within `[min, max]` when `min <= max`, in which case a value already inside is unchanged and one outside is clamped to the nearer bound; `min` when `min > max` |
| Util.Swap | util.h:17 | the two variables exchange their values |
| Util.Abs | screen.c:66-67 | `abs` gives `x` or `-x`, never negative |
| Util.Half | ewmh.c:331-351 | C's `/ 2` truncates toward zero: remainder 0 or the sign of the dividend, and the quotient lies between 0 and the dividend |
| Util.ToInt16 | screen.c:63-77 | storing into an `int16_t` keeps every value in range and otherwise agrees modulo 65536 |
| ClientRecord.Assign | JBWMClient.h:10-29 | assigning one option bit sets exactly that bit and leaves every other option as it was |
| ClientRecord.ToIgnoreCount | JBWMClient.h:47 | the 3-bit signed `ignore_unmap` keeps -4..3 and otherwise wraps modulo 8 |
| ClientRecord.ToVDesk | JBWMClient.h:48 | the 4-bit `vdesk` keeps 0..15 and otherwise wraps modulo 16 |
| ClientRecord.ToByte | screen.c:147 | a `uint8_t` parameter keeps 0..255 and otherwise wraps modulo 256 |
| ClientRecord.NewRecord | new.c:115-122 | a fresh record has the window and screen given, border 1, no frame, desktop 0, no ignored unmaps and every option false |
| ClientRecord.IndexOf | events.c:179-186 | the lookup finds the first client whose window or frame is the handle, and nothing only when no client has it |
| ClientRecord.FindClient | events.c:23 | the scan from the head returns exactly `IndexOf` |
| ClientRecord.IndexOfFirst | events.c:23 | a client carrying the handle before which no client carries it is the one found |
| ClientRecord.PrependKeepsDistinct | new.c:135-136 | linking a client whose window and frame are unused at the head keeps every window and frame handle unique in the registry |
| ClientRecord.DistinctMatchUnique | events.c:26-38 | in a registry with unique handles, two clients matching the same handle are the same client, so a window never has a second record |
| ClientRecord.SetScreenDesktop | vdesk.c:36 | only the screen's current desktop changes, and the registry invariant holds |
| ClientRecord.SetClient | events.c:71-80 | one client record is replaced by one with the same handles and screen; the others are kept and the registry invariant holds |
| ClientRecord.ToggleMaximize | events.c:287-290 | `maximize` flips the client's maximized flag, changes nothing else and is recorded |
| Events.Roots | events.c:13-14 | the roots of the screens, one per screen in screen order |
| Events.RootsIgnoreDesktop | vdesk.c:36 | setting a screen's desktop leaves every root, and so every `find_screen` answer, as it was |
| Events.ScreenIndex | events.c:8-18 | the first screen with the root, or none exactly when no screen has it |
| Events.FindScreen | events.c:8-18 | the byte-counted scan over the screens returns exactly `ScreenIndex` |
| Events.ScreenIndexFirst | events.c:13-15 | the first screen with the root is the one found |
| Events.MapRequests | events.c:20-40 | an unknown window asks `make_new_client` for its root's screen; a known client flagged for removal gets nothing; any other known client gets exactly one `unhide` |
| Events.HandleMapRequest | events.c:20-40 | the requests issued are exactly `MapRequests`; the registry and everything else are unchanged |
| Events.RemoveAt | events.c:52-53 | `remove_client` unlinks exactly that node, keeps the others in order and the registry invariant |
| Events.CleanupNode | events.c:49-56 | one node of the walk: the walked prefix is replaced by its kept clients and its removals are logged |
| Events.RemoveFlagged | events.c:49-56 | the walk leaves exactly `Kept` of the registry, in order, and logs one removal per flagged client, head first |
| Events.ClearCleanup | events.c:48 | clears the cleanup flag and nothing else |
| Events.Kept | events.c:49-56 | the kept clients are no more than the registry |
| Events.RemovalLog | events.c:52-53 | at most one request per client, each a `remove_client` |
| Events.Cleanup | events.c:42-57 | clears `need_cleanup`; the registry becomes the unflagged clients in their order; one `remove_client` per flagged client |
| Events.CleanupStep | events.c:51-53 | extending the walk by one node keeps it or logs its removal |
| Events.KeptExactly | events.c:52-53 | a client survives the cleanup if and only if it was registered and is not flagged |
| Events.RemovedExactly | events.c:52-53 | a window's client is removed if and only if some registered client carrying it is flagged |
| Events.KeptUnflagged | events.c:42-57 | no client left by the cleanup is flagged |
| Events.KeptOrRemoved | events.c:49-56 | every client is either kept or removed, never both, so the counts add up to the registry's length |
| Events.NothingFlaggedNothingRemoved | events.c:49-56 | with nothing flagged the cleanup keeps the registry and removes nothing |
| Events.Unmapped | events.c:71-80 | with no ignores left the client is flagged for removal; otherwise only the ignore count drops by one |
| Events.IgnoredUnmapsThenRemoved | events.c:71-80 | after as many unmaps as its ignore count the client is unflagged with count 0, and the next unmap flags it |
| Events.HandleUnmap | events.c:59-82 | an unknown window changes nothing; a known client is updated as `Unmapped` says, and `need_cleanup` is set when the client is flagged and otherwise kept; every flagged client stays accounted for by `need_cleanup` |
| Events.PropertyRequests | events.c:129-170 | WM_HINTS, OPAQUE_REGION and USER_TIME (and only these) do nothing; WM_NAME updates the title bar; any other atom calls `moveresize` on the client |
| Events.HandlePropertyChange | events.c:114-172 | an unmanaged window changes nothing; a managed one issues `PropertyRequests` and nothing else changes |
| Events.EnterSelects | events.c:183-186 | a sticky client is always selected; another only when it is on the screen's desktop and the event is for its own window |
| Events.EnterFrameOrHiddenIgnored | events.c:183-186 | entering a non-sticky client's frame, or a client of another desktop, selects nothing |
| Events.HandleEnter | events.c:174-190 | a sticky client is selected; a non-sticky one only on its screen's desktop and on its own window; nothing else changes |
| Events.ConfigureChanges | events.c:217-223 | the forwarded changes are the request's own with border width 0 and the request's sibling and stacking mode |
| Events.HandleConfigureRequest | events.c:210-237 | an unmanaged window's request is forwarded with its own value mask; a managed window's issues nothing |
| Events.Toggled | events.c:289 | the maximized flag flips and every other option is kept |
| Events.ToggledTwice | events.c:289 | maximizing twice restores the record |
| Events.MessageRequests | events.c:256-291 | activation selects if and only if the client is on the pointer's screen; closing sends delete if and only if `l[1] == 2`; maximize is called if and only if `l[1]` or `l[2]` is FULLSCREEN |
| Events.ManagedMessage | events.c:259-291 | the managed branch issues `MessageRequests` and flips the maximized flag exactly when FULLSCREEN is named |
| Events.MessageOutcome | events.c:239-292 | `_NET_WM_DESKTOP` records `switch_vdesk` of the pointer's screen to `l[0]` and changes no client; an unmanaged window gets nothing; a managed one gets `MessageRequests`, the registry changing exactly when `maximize` is called, by flipping the client's flag for a FULLSCREEN `_NET_WM_STATE`; handles and removal flags never change |
| Events.ToggledKeepsOthers | events.c:289 | flipping the maximized flag changes the record but not its handles, screen or removal flag |
| Events.HandleClientMessage | events.c:239-292 | the registry and the requests issued are exactly `MessageOutcome`'s |
| Events.ClientFor | events.c:23 | the client found is registered and matches the handle, and exists exactly when `IndexOf` finds one |
| Events.DispatchedKeeps | events.c:300-350 | one handler per event: handles, order and screens of the clients are kept, only an unmap can change `need_cleanup` or a removal flag, requests are only appended, and a flagged client stays accounted for by `need_cleanup` |
| Events.CleanedUp | events.c:42-57 | the flag is clear, no client is flagged, a client is kept exactly when it was registered and unflagged, every client is kept or removed, and requests are only appended |
| Events.KeptOnScreens | events.c:49-56 | the kept clients stay on valid screens |
| Events.Stepped | events.c:351-352 | `cleanup` runs exactly when the handler left the flag set; with every flagged client accounted for, the turn ends with nothing flagged and the flag clear |
| Events.UnmapRemovesInSameTurn | events.c:71-80 | a client unmapped with no unmap left to ignore has its `remove_client` issued and no client with its window is left at the end of the turn |
| Events.Run | events.c:294-354 | over any events the clients stay on their screens, requests are only appended, flagged clients stay accounted for, and after at least one event nothing is flagged and the flag is clear |
| Events.Dispatch | events.c:300-350 | the loop state after the handler is `Dispatched` of the one before; the registry invariant holds |
| Events.Step | events.c:298-353 | the loop state after one turn is `Stepped` of the one before; the registry invariant holds |
| Events.MainEventLoop | events.c:294-354 | the loop state after the events is `Run` of the initial one over them; the registry invariant holds |
| EwmhState.ContainsIsMembership | ewmh.c:127-129 | the backwards search finds the atom if and only if some entry equals it |
| EwmhState.GetState | ewmh.c:120-132 | true if and only if the property exists and lists the atom; false for an absent property |
| EwmhState.Prepended | ewmh.c:134-139 | the new list is the atom followed by the old list (empty when absent) |
| EwmhState.PrependedCounts | ewmh.c:134-139 | adding never merges: each add gives one more copy of the atom and no other count changes |
| EwmhState.AddState | ewmh.c:134-139 | the property becomes `Prepended`, every other property is unchanged |
| EwmhState.Zeroed | ewmh.c:113-115 | same length; each entry equal to the atom becomes 0 and every other entry is kept |
| EwmhState.ZeroedCounts | ewmh.c:113-115 | a non-zero atom is gone after zeroing and every other value keeps its count |
| EwmhState.RemoveState | ewmh.c:106-118 | an absent property is left alone; a present one becomes `Zeroed` |
| EwmhState.StateActionAsWritten | ewmh.c:179-197 | as written: add for 1; remove for 0 and any other action; a toggle tells the callback `!present` and writes only when adding |
| EwmhState.StateAction | ewmh.c:179-197 | corrected: the callback is told to add exactly when the property write adds; toggle adds exactly when absent |
| EwmhState.WrittenPresence | ewmh.c:106-139 | a state write changes the presence of its own atom on its own window only |
| EwmhState.ToggleFlips | ewmh.c:190-196 | with the corrected toggle the state's presence flips |
| EwmhState.ToggleKeepsPresentStateAsWritten | ewmh.c:190-196 | as written, toggling a present state leaves it present although the callback was told to remove it |
| EwmhState.ToggleVersionsAgreeOnAbsent | ewmh.c:190-196 | the two versions differ exactly on a toggle of a present state |
| EwmhState.RunCallback | ewmh.c:201-232 | ABOVE raises and BELOW lowers the window only when adding; SKIP_PAGER calls `add_sticky` or `remove_sticky` for a managed client; FULLSCREEN calls `maximize` on a managed client exactly when its maximized flag differs from the request, leaving the flag as requested |
| EwmhState.CallbackOutcome | ewmh.c:201-232 | the registry keeps its size and requests are only appended; only the fullscreen callback on a managed client changes the registry, only that client's maximized flag, which ends equal to the request |
| EwmhState.DecideState | ewmh.c:179-196 | the `switch` on the action returns `StateAction` for the current presence |
| EwmhState.WriteState | ewmh.c:182-196 | the property store becomes `Written` |
| EwmhState.CheckState | ewmh.c:164-199 | the properties, registry and requests become `Checked` of the old ones |
| EwmhState.WrittenPresenceAll | ewmh.c:106-139 | `WrittenPresence` for every window and non-zero atom at once |
| EwmhState.Checked | ewmh.c:164-199 | one `check_state` keeps the registry's size and only appends requests |
| EwmhState.CheckedProps | ewmh.c:164-199 | nothing changes unless `l[1]` or `l[2]` names the state; otherwise only the event window's `_NET_WM_STATE` changes, the state ends present exactly when the decision adds, and every other state keeps its presence |
| EwmhState.CheckedClients | ewmh.c:164-199 | only the client at `c` can change, and only its maximized flag; the registry is unchanged unless the fullscreen callback runs for a managed window; when it runs, the flag ends set exactly when the decision adds |
| EwmhState.HandleWmStateChanges | ewmh.c:234-243 | the properties, registry and requests become `WmStateChanged` of the old ones |
| EwmhState.WmStateChanged | ewmh.c:234-243 | the six steps keep the registry's size and only append requests |
| EwmhState.WmStateChangedProps | ewmh.c:234-243 | only the event window's `_NET_WM_STATE` changes; each handled state ends as its own step decides, and every other state and window keeps its presence |
| EwmhState.WmStateChangedClients | ewmh.c:201-243 | without a fullscreen or maximized state named the registry is unchanged; otherwise only the client at `c` changes, and only its maximized flag |
| EwmhState.WmStateChangedMaximized | ewmh.c:201-243 | when MAXIMIZED_VERT is named for a managed window, the maximized flag ends as that last step decides, whatever the earlier steps did |
| EwmhState.OnlyStateOfChain | ewmh.c:234-243 | changes confined to one window's `_NET_WM_STATE` compose |
| EwmhState.OtherWindowsKeepStates | ewmh.c:234-243 | such a change leaves every other window's states as they were |
| EwmhState.PresenceAfter | ewmh.c:234-243 | of six steps for six distinct states only the one for a given state changes its presence |
| EwmhState.PresenceAfterAll | ewmh.c:234-243 | every handled state ends as its own step says, and every unhandled state keeps its presence |
| EwmhGeometry.Column | ewmh.c:246-287 | the horizontal anchor of a gravity is west, centre or east |
| EwmhGeometry.Row | ewmh.c:246-287 | the vertical anchor of a gravity is north, centre or south |
| EwmhGeometry.BorderShift | ewmh.c:246-287 | the shift is `bw` times the negated column across and `bw` times the negated row down: away from the anchored edges for a positive `bw` |
| EwmhGeometry.GravitateBorder | ewmh.c:246-287 | only x and y change, by the border shift, except on an axis where the window sits at 0 and spans the display |
| EwmhGeometry.BorderShiftNegates | ewmh.c:246-287 | the correction is odd in the border width, so applying it with `-b` undoes it with `b` |
| EwmhGeometry.ClampDim | ewmh.c:302-321 | the request raised to `min`, then lowered to `max` when `max` is non-zero: exactly `Max(req, min)` when that is allowed, `max` when it is too large, `min` for a small request under a consistent bound |
| EwmhGeometry.Reanchor | ewmh.c:323-358 | x moves back by 0, the truncated half or all of the width change for a west, centre or east anchor, and y likewise with the height change |
| EwmhGeometry.Resize | ewmh.c:297-321 | only width and height change, each to the clamped request when its bit is in the mask; the deltas are the differences |
| EwmhGeometry.NewGeometry | ewmh.c:290-361 | the gravity is the request's, or the client's hint for 0; only position, size and gravity change; without size bits the size is kept and X/Y are taken; with a position bit the mask is kept, with size bits only it gains X and Y; each requested dimension is clamped |
| EwmhGeometry.UnpositionedResize | ewmh.c:297-361 | only position and size change, each requested dimension clamped |
| EwmhGeometry.WindowChangesOf | ewmh.c:289-370 | the size is `NewGeometry`'s; the frame is configured first, then the window resized at (0, 0) to the new size, and a ConfigureNotify follows exactly for a move without resize |
| EwmhGeometry.ConfigureRequests | ewmh.c:362-369 | the frame is placed at the client position less the border, with that border width and the requested size; two requests, or three ending in a ConfigureNotify exactly for a move without resize |
| EwmhGeometry.ReanchorKeepsAnchor | ewmh.c:323-361 | re-anchoring after a size change keeps the anchored point of every gravity: NorthEast keeps `x+width`, SouthEast keeps both far edges, Center moves by the truncated half-delta, NorthWest keeps `x,y` |
| EwmhGeometry.ReanchorTranslates | ewmh.c:323-361 | re-anchoring commutes with translating the window |
| EwmhGeometry.PositionBitsAdded | ewmh.c:359 | adding CWX and CWY to a mask with size bits and no position bits adds exactly 3 and keeps the size bits |
| EwmhGeometry.ComputeGeometry | ewmh.c:290-361 | the step-by-step size update equals `NewGeometry` |
| EwmhGeometry.DoWindowChanges | ewmh.c:289-370 | the client's size becomes `WindowChangesOf`'s and the frame and window configure requests are issued; the registry invariant holds |
| EwmhGeometry.PositionedRequestIsTaken | ewmh.c:295-301 | with X or Y in the mask the requested position is taken as is: no re-anchoring, no border correction |
| EwmhGeometry.UnpositionedResizeKeepsAnchor | ewmh.c:323-361 | a borderless resize without position keeps the gravity's anchored point |
| EwmhGeometry.BorderCorrectionCancels | ewmh.c:323-358 | the two border corrections around an unpositioned resize cancel, away from the display-spanning case |
| EwmhGeometry.UnpositionedBorderCancels | ewmh.c:323-358 | an unpositioned resize gives the same geometry for any border |
| EwmhGeometry.MinimumWidthScenario | ewmh.c:302-321 | a request below the minimum width gets the minimum and keeps x under NorthWest gravity |
| Ewmh.MoveResizeFieldsRoundTrip | ewmh.c:401-407 | decoding source, value mask and gravity recovers each packed field whatever the higher bits |
| Ewmh.SourceOf | ewmh.c:401 | the source indication is two bits |
| Ewmh.MaskOf | ewmh.c:406 | the value mask is four bits |
| Ewmh.GravityOf | ewmh.c:407 | the gravity is one byte |
| Ewmh.Classify | ewmh.c:387-423 | a state change exactly for `_NET_WM_STATE`; the viewport, desktop count, move/resize and state messages are never ignored; every client-only action implies a managed window |
| Ewmh.UnmanagedMessages | ewmh.c:387-423 | a message about an unmanaged window can only set root properties, be a (pager) move/resize or a state change |
| Ewmh.MoveResizeOnlyFromPagers | ewmh.c:399-410 | a move/resize is applied if and only if its source indication is 2 |
| Ewmh.ActivateAndCloseConditions | ewmh.c:394-397 | activation if and only if `l[0] == 2` and managed; closing if and only if `l[1] == 2` and managed |
| Ewmh.EwmhClientMessage | ewmh.c:372-424 | for `_NET_WM_STATE` the store becomes `WmStateChanged` of the old one; for any other message the desktop switch comes first for CURRENT_DESKTOP, then exactly the effect `Branched` gives the chosen branch (desktop move, viewport, desktop count, activate, close, pager move/resize with gravity 0 meaning the client's own, user move, minimize) |
| Ewmh.MessageBranch | ewmh.c:388-397 | for any message other than `_NET_WM_STATE`, the registry, requests and properties become `Branched` of the old ones: the effect of the branch `Classify` chooses and nothing else |
| Ewmh.MessageBranchRest | ewmh.c:398-423 | the same for a message none of the first five branches takes |
| Ewmh.UserRequestBranch | ewmh.c:411-423 | the same for a message that is no `_NET_MOVERESIZE_WINDOW` either; only requests are added |
| Ewmh.ApplyPagerMoveResize | ewmh.c:401-408 | mask, gravity and geometry decoded from the message are applied as `WindowChangesOf` says, to the one client |
| Ewmh.Windows | ewmh.c:96-97 | the application windows of the registry, in order |
| Ewmh.ClientList | ewmh.c:92-97 | the first `min(n, 1024)` windows from the head, in order |
| Ewmh.ClientListComplete | ewmh.c:92-97 | the list names only clients, and up to 1024 clients it names every one |
| Ewmh.UpdateClientList | ewmh.c:89-102 | the counted loop publishes `ClientList` as both CLIENT_LIST and CLIENT_LIST_STACKING on the first root |
| NewClient.DesktopHint | new.c:21-37 | an absent property gives the default and no write; a valid one (non-empty, below the maximum) is adopted; an invalid one gives the default, written back |
| NewClient.WmDesktop | new.c:21-37 | the result and the property write are those of `DesktopHint` |
| NewClient.DesktopHintAdoptsValid | new.c:27-32 | a present value is kept exactly when it is a valid desktop, and written back exactly when it is not |
| NewClient.DesktopRepairIsStable | new.c:29-32 | after a repair with a valid default a second read adopts it |
| NewClient.FrameExtents | new.c:43-52 | four values: left, right and bottom the border, top the border plus the title bar height unless there is none |
| NewClient.Center | new.c:75-83 | a positioned window is unchanged; only x and y can change |
| NewClient.CenterHalvesSeparately | new.c:81-82 | screen size and window size are each halved and rounded down, as `>> 1` does for non-negative values; the difference is not halved as a whole |
| NewClient.CenterIsCentred | new.c:75-83 | an unpositioned window's midpoint is the screen's midpoint to within half a pixel |
| NewClient.Created | new.c:109-140 | the new record has the window, frame and screen given, the desktop `wm_desktop` settles, the attributes' geometry, one ignored unmap exactly when viewable, and without Motif hints no options and border 1 |
| NewClient.CreationRequests | new.c:124-143 | ten requests, starting with the input selection on the window |
| NewClient.CreationOrder | new.c:95-112 | the frame is created once, at the centred geometry, before the window is reparented into it at (0, 0) and mapped |
| NewClient.InitProperties | new.c:57-62 | Motif hints applied, then the desktop starts as the screen's and is replaced by `wm_desktop`'s |
| NewClient.InitGeometry | new.c:85-91 | the geometry comes from the attributes, the ignore count rises exactly when viewable, and the size becomes `Center` of it |
| NewClient.SetHead | new.c:136 | the new client becomes the head in front of the old registry, invariant kept |
| NewClient.NewClientOn | new.c:131-144 | the registry grows by exactly `Created` at the head; the requests are issued in the fixed order grabs, properties, geometry, reparent, extents, restore, title bar |
| NewClient.FrameAndLink | new.c:104-113 | the frame is created and the window reparented and mapped, the extents published, restore and title bar requested in that order; the framed record is the new head |
| NewClient.NewClientIsRegistered | new.c:135-136 | the new client is found by its window and its frame and the older clients follow unchanged |
| Screen.PointOf | screen.c:49-55 | a `jbwm_point_t` holds each coordinate truncated to 16 bits |
| Screen.TitleOffset | screen.c:119-120 | the `uint8_t` offset is 0 without a title bar and TDIM when it fits |
| Screen.Outline | screen.c:24-33 | a rectangle is drawn if and only if the client has a border |
| Screen.MoveResizeRequests | screen.c:116-129 | the frame is placed, then the window inside it, then the shape is set |
| Screen.WindowFillsFrame | screen.c:119-126 | the frame is at `(x, y-offset, w, h+offset)` and the window at `(0, offset, w, h)` |
| Screen.FrameOffsetMatchesExtents | screen.c:119-126 | the window's offset in the frame is the top extent less the border |
| Screen.OutlineTracesFrame | screen.c:24-33 | the outline traces the frame grown by the border |
| Screen.SetSize | screen.c:63-68 | only width and height change, to the distances from the corner to the pointer |
| Screen.SetPosition | screen.c:70-77 | only x and y change |
| Screen.DragFollowsPointer | screen.c:74-75 | between two motions the window moves exactly as far as the pointer |
| Screen.MovedOverrides | screen.c:89-93 | a later motion overrides an earlier one entirely |
| Screen.DragStep | screen.c:88-94 | one pass updates only the geometry |
| Screen.MotionCount | screen.c:83-87 | the events before the first non-motion are all motions |
| Screen.DragLoop | screen.c:79-96 | the loop changes only the client's geometry |
| Screen.DragLoopLastMotion | screen.c:79-96 | the loop ends with the geometry of the last motion, or unchanged without one |
| Screen.DragLoopIsSteps | screen.c:83-95 | the loop is its motion events' steps, one each, up to the first other event |
| Screen.DragEventStep | screen.c:88-94 | one pass in place: the registry and log advance by one step |
| Screen.DragEventLoop | screen.c:79-96 | the in-place loop leaves the client and log as `DragLoop` says |
| Screen.DragRaisesFirst | screen.c:98-102 | the frame is always raised first; a refused resize (no_resize or shaded) does only that, any other drag releases the pointer and re-applies the geometry |
| Screen.DragConfiguresOnlyMoves | screen.c:112-113 | the drag ends with a synthetic ConfigureNotify exactly for a move of a non-tear-off client |
| Screen.DragMoveEndsAtLastMotion | screen.c:74-75 | a move ends at the start position plus the pointer's displacement at the last motion |
| Screen.DragResizeEndsAtLastMotion | screen.c:66-67 | a resize keeps the corner and ends with `|x - px|` by `|y - py|` |
| Screen.GrabForDrag | screen.c:103-107 | grab on the root, then for a resize the pointer warp |
| Screen.EndDrag | screen.c:109-113 | outline, ungrab, geometry, and the ConfigureNotify for a move |
| Screen.DragOutcome | screen.c:98-114 | a drag changes only the client's geometry |
| Screen.Drag | screen.c:98-114 | the registry and log become those of `DragOutcome` |
| Screen.Hide | screen.c:131-137 | the frame is unmapped and HIDDEN is prepended |
| Screen.Unhide | screen.c:139-145 | the frame is mapped and every HIDDEN entry is cleared |
| Screen.SwitchSparesOthers | screen.c:154-162 | a window that is no client's keeps every state |
| Screen.SwitchHidden | screen.c:154-162 | each client ends hidden if concealed and not hidden if shown, and keeps every other state |
| Screen.SwitchAction | screen.c:155-161 | a client is shown exactly when sticky or on the screen and on `v` but not the current desktop; concealed exactly when non-sticky on the screen and the current desktop; another screen's non-sticky client is left alone |
| Screen.VisibilityRequests | screen.c:131-145 | at most one request: the frame mapped exactly when shown, unmapped exactly when concealed, nothing when left alone |
| Screen.SwitchClient | screen.c:155-161 | one client is shown, hidden or left as `SwitchAction` says |
| Screen.SwitchClients | screen.c:154-162 | the requests and property writes of the loop over all clients, head first, are `SwitchLog` and `SwitchProps` of the registry |
| Screen.SwitchVdesk | screen.c:147-168 | no-op answering the current desktop when `v` is current or above DESKTOPS; otherwise every client is handled head first, the screen's desktop becomes `v` and CURRENT_DESKTOP is set |
| Vdesk.Checked | vdesk.c:20-24 | a restored client moves onto `v`; any other is unchanged |
| Vdesk.CheckRequests | vdesk.c:20-26 | no request for another screen's client; restore if sticky or already on `v`; hide otherwise |
| Vdesk.CheckedAll | vdesk.c:15-29 | node by node, each client as `Checked` says |
| Vdesk.CheckNode | vdesk.c:18-27 | one node in place as `Checked` and `CheckRequests` say |
| Vdesk.CheckVisibility | vdesk.c:15-29 | the recursion from node `k` visits every later node once, head to tail |
| Vdesk.SwitchTo | vdesk.c:35-39 | all clients checked for `v`, the screen's desktop set to `v`, CURRENT_DESKTOP written; nothing else changes |
| Vdesk.CheckAll | vdesk.c:35 | the registry becomes `CheckedAll` of the old one for `v`, and the requests `VisibilityLog` says are appended |
| Vdesk.SetVdesk | vdesk.c:30-41 | no-op for the current desktop or above JBWM_MAX_DESKTOPS (the maximum itself is accepted); otherwise all clients checked, desktop set, CURRENT_DESKTOP written |
| Vdesk.VisibilityLogAppend | vdesk.c:15-29 | the requests for a split list are those of each part in order |
| Vdesk.HiddenExactly | vdesk.c:25-26 | a window is hidden exactly when its client is on the screen and neither sticky nor on `v` |
| Vdesk.OnlyTheScreen | vdesk.c:20 | one request per client of the screen and none for another screen's |
| Vdesk.RevisionsDiffer | vdesk.c:20-26 | vdesk.c hides an on-screen client on neither desktop, which screen.c keeps; screen.c shows an off-screen sticky client, which vdesk.c leaves alone |
| Mwm.ProcessFlags | mwm.c:37-45 | a tear-off gets the five forced bits; no other bit changes; border 0 exactly when `no_border` |
| Mwm.DoFunctions | mwm.c:46-72 | a missing MOVE bit sets `no_move`, nothing else changes |
| Mwm.DoDecorations | mwm.c:73-101 | `no_border` and `no_title_bar` are decided by BORDER and TITLE; MENU and MINIMIZE clear `no_close`/`no_min`; nothing else changes |
| Mwm.HandleMwmHints | mwm.c:107-125 | an absent property changes nothing; otherwise `tearoff` is the STATUS test, a tear-off skips both hint kinds, and border 0 exactly when `no_border` |
| Mwm.DecorationHintsDecide | mwm.c:120-121 | consulted decoration hints decide border and title bar |
| Mwm.FunctionHintsOnlyMove | mwm.c:118-119 | consulted function hints only ever set `no_move` |
| Mwm.UnconsultedHintsKeepOptions | mwm.c:113-124 | a present but unconsulted property only clears `tearoff` and re-derives the border |
| ButtonEvent.RegionAction | button_event.c:25-29 | the resize box wins, then the shade box, else drag |
| ButtonEvent.Button1Requests | button_event.c:9-33 | raise first, the region action last, and delete sent exactly in the close box |
| ButtonEvent.ButtonRequests | button_event.c:35-60 | nothing for an unmanaged or maximized client or another button; Button2 lowers; Button3 resizes |
| ButtonEvent.CloseBoxFallsThroughToDrag | button_event.c:17-29 | a close-box press unshades, deletes and still drags |
| ButtonEvent.ResizeBoxWins | button_event.c:25-28 | in the resize zone no shade happens |
| ButtonEvent.Button1Shape | button_event.c:14-29 | every Button1 press on a managed client raises first and ends with exactly one of resize, shade or drag |
| Startup.ParseModifiers | jbwm.c:41-66 | the result is a modifier mask and Mod1 for three characters or fewer |
| Startup.ModifierNames | jbwm.c:44-65 | each documented name selects its modifier |
| Startup.FourthCharacterDecides | jbwm.c:46-61 | arguments agreeing on the fourth character select the same modifier |
| Startup.Adopted | jbwm.c:165-170 | no more adoptions than children, walking from the last child to the first |
| Startup.CheckRedirect | jbwm.c:139-149 | a window is adopted exactly when it is not override-redirect and is viewable |
| Startup.AdoptedMembership | jbwm.c:148 | a window is adopted exactly when it is not override-redirect and is viewable |
| Startup.TopmostFirst | jbwm.c:165-170 | the last child is adopted first |
| Startup.SetupClients | jbwm.c:160-172 | the countdown loop adopts as `Adopted` says, over the 16-bit child count |
| Startup.Elements | jbwm.c:173-181 | a screen record holds its root and desktop 0 |
| Startup.InitScreensAsWritten | jbwm.c:173-181 | as written only record 0 is filled, with the data of screen 0 |
| Startup.SecondScreenUninitialisedAsWritten | jbwm.c:175 | on a two-screen display record 1 stays blank |
| Startup.InitScreens | jbwm.c:237-238 | corrected: record `i` holds screen `i` |

## Left out

- Every X call: each is an appended request or a property update, and the server's replies are parameters.
- `handle_expose_event` (events.c:192-208): the title bar window is not part of the client record here.
- `handle_colormap_change` and `get_atom_name` (events.c:84-112), and the ShapeNotify case: these need `USE_CMAP` and `USE_SHAPE`.
- `find_client`, `make_new_client`, `remove_client`, `select_client`, `send_wm_delete`, `maximize`, `add_sticky`, `remove_sticky`, `client_to_vdesk`, `update_titlebar`, `set_shape`, `snap_client`, `sweep`, `shade`, key handling, `jbwm_restore_client` and `jbwm_hide_client`: client.c and the other files holding these are not part of this model. They are recorded as requests; `remove_client` and `maximize` are also interpreted, as the next two lines say. `find_client` is assumed to match a client's window or its frame.
- Events.RemoveAt: assumes that `remove_client` unlinks exactly its node and keeps the others in order; the freeing of the record and the server calls inside it are not modelled.
- ClientRecord.ToggleMaximize: assumes that `maximize` flips the maximized flag and changes nothing else in the record; its geometry changes are not modelled.
- Events.MapRequests: `unhide` as called from events.c is recorded, not interpreted (the older revision's `unhide` is not part of this model), so the frame mapping and `_NET_WM_STATE_HIDDEN` update are not modelled for it.
- Events.PropertyRequests: `moveresize` as called from events.c is recorded, not interpreted, for the same reason.
- Events.MessageOutcome: the older revision's `switch_vdesk(s, v)` is recorded with `l[0]` as sent, not interpreted; the truncation of `v` to that function's parameter type happens inside it and is not modelled.
- Startup.ParseModifiers: works on a string of characters; the C code's `arg[3]` and `strlen` index bytes, so a multi-byte character in the first four positions is not modelled.
- EwmhState.DecideState, EwmhState.CheckState, EwmhState.HandleWmStateChanges and Ewmh.EwmhClientMessage: these run the corrected toggle (`EwmhState.StateAction`); as written, a toggle of a state already present tells the callback to remove it and writes nothing (see Findings, and `EwmhState.StateActionAsWritten`).
- `ewmh_init`, `setup_ewmh_for_screen`, `set_ewmh_allowed_actions` and atom interning: these publish start-up properties. Atoms are distinct constants.
- `parse_argv`, `allocate_colors`, `setup_gc`, `setup_event_listeners`, `print`/`jbwm_error` and display.c: configuration, colours, output and I/O.
- Events.MainEventLoop: the source's loop never ends; the model runs it over a finite sequence of events.
- EwmhState.RemoveState: it writes the zeroed list, as intended. ewmh.c:116 passes the address of the pointer (`&a`), so the bytes written are the pointer's, not the list; that behaviour is not modelled.
- Ewmh.EwmhClientMessage: requires that a pager's `_NET_MOVERESIZE_WINDOW` names a managed window, because ewmh.c:408 passes the client unchecked and would dereference NULL.
- Events.HandleClientMessage: requires that a `_NET_WM_DESKTOP` message arrives with the pointer on a managed screen, because `find_screen`'s NULL result is passed on unchecked (events.c:250-253).
- Events.FindScreen: requires fewer than 256 screens, because the `ubyte` counter would wrap and the loop would never end.
- Events.HandleConfigureRequest: for a managed window the sibling translation (events.c:226-233) has no effect, since its result is never sent; the model issues nothing for it.
- Screen.SwitchVdesk and Vdesk.SetVdesk: CURRENT_DESKTOP is modelled as holding `v`. The source passes a one-byte variable to a 32-bit property write, so the bytes after `v` are not modelled.
- Screen.SetPosition: `snap_client` (screen.c:76) is not applied, since its code is not part of this model. The position is the exact drag arithmetic.
- Screen.DragLoop: the events are a finite sequence ending in a non-motion event; blocking for events is not modelled.
- The linked list of clients is modelled as a sequence field of the manager. Node identity and aliasing of `next` pointers are not modelled.

## Findings

| source | as written | input that shows it | evidently intended | confidence | as-written member | corrected member |
|---|---|---|---|---|---|---|
| ewmh.c:190-196 | a toggle of a present state tells the callback to remove it but never removes it from `_NET_WM_STATE` | `_NET_WM_STATE` toggle (action 2) of a state the window already lists | the state is removed, so toggling flips it | high (not executed) | EwmhState.ToggleKeepsPresentStateAsWritten | EwmhState.ToggleFlips |
| jbwm.c:175 | `setup_screen_elements` fills `screens[0]` for every screen | a display with two screens: record 1 is never filled | record `i` is filled for screen `i` | high (not executed) | Startup.SecondScreenUninitialisedAsWritten | Startup.InitScreens |
