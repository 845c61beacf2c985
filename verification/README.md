# weston-wall shell modules in Dafny

weston-wall adds desktop-shell pieces to the weston compositor as loadable
modules, each exposing one Wayland global. This project models the
decision logic of four of them:

- **Launcher menu** (`zww_launcher_menu_v1`).
  - A single client binds the global and shows one popup surface.
  - The popup is placed centred on an output, at the pointer, or below a
    rectangle of another surface.
  - While it is shown, the keyboard, pointer and touch device of one seat run
    the menu's grab.
  - A button released outside the menu ends the grab and tells the client to
    dismiss the menu. The release of the button that opened the menu is
    ignored when it comes within 500 ms.
- **Dock manager** (`zww_dock_manager_v2`).
  - Surfaces become docks on an edge of an output, and docks on one edge stack.
  - Each output's workarea is its rectangle minus the docks' thickness. The
    workarea code is a `switch` whose TOP and LEFT cases fall through.
- **Notification area** (`zww_notification_area_v1`).
  - The area follows one output and tells its client the workarea
    geometry whenever the workarea rectangle changes (origin or size), and
    again when the client binds.
  - Notifications are positioned relative to the workarea origin.
- **Window switcher** (`zww_window_switcher_v1`).
  - When a client binds, it is told about each window (a surface with a desktop surface) that has a
    view in the compositor's view list at that moment, once per view: the
    window, its title, its app id, then done. Windows mapped later are never
    announced.
  - The client may focus or close a window when its request carries a
    current input serial.

The compositor is one `Host.Compositor` object (`host.dfy`). It holds seats with
optional keyboard, pointer and touch devices, outputs, surfaces and views,
with integer geometry. Each module is a class that holds a reference to it
and changes only the fields its `modifies` clauses name. Messages sent to
clients are appended to an `events` log on each module object.

Files:

- `host.dfy`: module `Host`.
- `launcher_menu.dfy`: module `LauncherMenu`.
- `dock_manager.dfy`: module `DockManager`.
- `notification_area.dfy`: module `NotificationArea`.
- `window_switcher.dfy`: module `WindowSwitcher`.

How the C code maps to the model:

- A C null pointer becomes `None` (for `Option` fields) or `null` (for
  object references).
- A C linked list becomes a `seq` field that the methods reassign.
- Hit-testing, "has a focus resource" and the work-area hook of the running
  shell are parameters or host fields.
- Each weston call the modules make (`weston_surface_set_role`,
  `weston_view_create`, `weston_keyboard_set_focus`, grab start and end) is
  modelled by its effect on the host state.

## Model

| member | source | states |
|---|---|---|
| Host.FirstGrabMatch | src/launcher-menu.c:492-502 | The device whose grab serial the request names: keyboard first, then pointer, then touch. None exactly when no present device has that serial. |
| Host.FixedToInt | src/launcher-menu.c:354-355 | `wl_fixed_to_int` truncates toward zero: for f >= 0, n*256 <= f < (n+1)*256, and the mirror image below zero. |
| Host.First | src/launcher-menu.c:95-103 | The default seat (or output) is the head of the compositor list. None exactly when the list is empty. |
| Host.Last | src/dock-manager.c:234-237 | A dock without a named output goes on the last output (`output_list.prev`). None exactly when the list is empty. |
| Host.Compositor.SetRole | src/launcher-menu.c:423 | A surface takes a role only if it has none or already has this one. The role is set exactly when this succeeds; otherwise the surfaces are unchanged. |
| Host.Compositor.CreateView | src/launcher-menu.c:427 | A new view id, not in use before, for an unmapped view at the origin, put first in the surface's view list. Compositor validity is kept. |
| Host.Compositor.DestroyView | src/dock-manager.c:213-214 | The view leaves the compositor's views, the compositor's view list and its surface's view list. Compositor validity is kept. |
| Host.Without | src/dock-manager.c:215 | Removal from a list: what remains is every element except `x`, and a list without `x` is unchanged. |
| LauncherMenu.GrabStarted | src/launcher-menu.c:250-275 | Every device the seat has runs the menu grab afterwards. A keyboard or touch device not already running it has its focus moved to the menu surface or view. A pointer not already running it ends with FocusUnderGrab of the view picked under it, because starting the grab runs the grab's focus handler (136-149) right after the focus is set to the menu view. Device presence, serials and (for the pointer) buttons, position and grab time are unchanged. |
| LauncherMenu.GrabEnded | src/launcher-menu.c:278-299 | No device of the seat runs the menu grab afterwards. Every other device field is unchanged. |
| LauncherMenu.EndAfterStart | src/launcher-menu.c:250-299 | Starting and then ending the grab on a seat that was not grabbed gives back every device unchanged except for its focus. |
| LauncherMenu.Elapsed | src/launcher-menu.c:169 | `time - grab_time` on the 32-bit millisecond clock: the plain difference, or the difference plus 2^32 once the clock has wrapped. |
| LauncherMenu.ReleaseTimeline | src/launcher-menu.c:158-171 | The release of the opening button within 500 ms keeps the menu. Any release after a first release dismisses it. A first release 501 ms after the grab dismisses it. |
| LauncherMenu.Dismissal | src/launcher-menu.c:278-299 | Ending a grab sends at most one message: a dismiss to the bound client, exactly when a dismiss was asked for and a client is bound. |
| LauncherMenu.FocusUnderGrab | src/launcher-menu.c:136-149 | Under the grab the pointer focuses only the menu's own view, and only when its surface has a client resource. Otherwise the focus is cleared. |
| LauncherMenu.Half | src/launcher-menu.c:346-347 | C's `n / 2` truncates toward zero: 2h is n or n-1 for n >= 0, and n or n+1 below zero. |
| LauncherMenu.Centred | src/launcher-menu.c:343-347 | The default placement centres the surface on the output to within one pixel: 2(x - out.x) differs from out.width - width by at most 1, and equals the difference of the two sizes each rounded down to even; likewise for y. |
| LauncherMenu.Menu.SeatFromSeat | src/launcher-menu.c:310-334 | The seat's existing grab record is returned unchanged and nothing is added. Otherwise a new record with `initial_up` false is registered for the seat. |
| LauncherMenu.Menu.GrabStart | src/launcher-menu.c:250-275 | The seat becomes GrabStarted of its old state. `initial_up` is set exactly when the seat has no pointer or no button is held. |
| LauncherMenu.Menu.GrabEnd | src/launcher-menu.c:278-299 | A null grab record changes nothing. Otherwise the seat becomes GrabEnded, the Dismissal messages are sent and `grab_seat` is cleared. |
| LauncherMenu.Menu.GrabCancel | src/launcher-menu.c:192-197 | A grab cancelled by the compositor ends the grab and dismisses the menu. The keyboard and touch handlers at 122-127 and 234-239 do the same. |
| LauncherMenu.Menu.PointerFocus | src/launcher-menu.c:136-149 | The grabbing seat's pointer focus becomes FocusUnderGrab of the picked view. Nothing else changes. |
| LauncherMenu.Menu.PointerButton | src/launcher-menu.c:158-171 | Every release sets `initial_up`. With a focus resource the button is forwarded and the grab stays. Otherwise a release ends the grab with a dismiss exactly when the old `initial_up` was set or more than 500 ms (mod 2^32) have passed. Any other event changes nothing. |
| LauncherMenu.Menu.ShowCommon | src/launcher-menu.c:413-449 | While a menu surface is set, the request is refused with UNIQUE and surface, view, output, grab seat and seats are unchanged. A surface with another role is refused with ROLE. Otherwise the menu is shown (see ShowNew). A refusal leaves every grab record's `initial_up` as it was; a show changes only the grabbing seat's record. The same frame holds for Show, ShowAtPointer and ShowAtSurface. |
| LauncherMenu.Menu.ShowNew | src/launcher-menu.c:423-448 | Effects of a show: the surface gets the role and a new unmapped view, and the output follows the keyboard focus or is the first output. The seat's grab record (reused or new) becomes `grab_seat` and runs the menu grab. |
| LauncherMenu.Menu.Attach | src/launcher-menu.c:423-436 | The role, the new view and the menu output, with the seats left unchanged. |
| LauncherMenu.Menu.Show | src/launcher-menu.c:452-460 | The ShowCommon outcome on the first seat. The placement then becomes PlaceDefault even when the show was refused. |
| LauncherMenu.Menu.ShowAtPointer | src/launcher-menu.c:463-479 | Without a pointer whose grab serial matches, the request is refused with SERIAL and nothing changes. Otherwise it has the ShowCommon outcome, and the placement becomes PlaceAtPointer even if ShowCommon refused. |
| LauncherMenu.Menu.ShowAtSurface | src/launcher-menu.c:482-512 | With no device serial matching (checked keyboard, pointer, touch), the request is refused with SERIAL and nothing changes. Otherwise the matching device names the anchor view (AnchorView, the corrected keyboard case; see Findings). The ShowCommon outcome follows, and placement and target are overwritten even if it refused. |
| LauncherMenu.AnchorView | src/launcher-menu.c:492-498 | Corrected: a keyboard match anchors to a view of the keyboard focus surface (its first one). A pointer or touch match anchors to that device's focus view. |
| LauncherMenu.AnchorAsWritten | src/launcher-menu.c:494 | As written: a keyboard match yields an address shifted off the focus surface's first view, which is no view. A pointer or touch match gives that device's focus, or null. |
| LauncherMenu.KeyboardAnchorAsWritten | src/launcher-menu.c:494 | A keyboard-serial request on a surface whose only view is 7: the code anchors to the shifted address, where view 7 was meant. |
| LauncherMenu.Menu.MenuPosition | src/launcher-menu.c:338-370 | DEFAULT: centred on the output within one pixel, horizontally and vertically, with each size halved and rounded down before subtracting (the exact pixel). At the pointer: each coordinate is the pointer's 24.8 value truncated toward zero, for both signs. SURFACE: the top-left corner sits at the bottom-left corner of the target rectangle, in the target view's frame. |
| LauncherMenu.Menu.SurfaceCommitted | src/launcher-menu.c:373-385 | Every commit moves the view to MenuPosition. The view is mapped afterwards; it becomes mapped on the first commit and stays mapped. Compositor validity is kept. |
| LauncherMenu.Menu.SurfaceDestroyed | src/launcher-menu.c:388-395 | The menu forgets its surface and the grab ends without a dismiss message. |
| LauncherMenu.Menu.ViewDestroyed | src/launcher-menu.c:398-404 | The menu forgets its view. |
| LauncherMenu.Menu.Unbind | src/launcher-menu.c:522-528 | The global is free again and the grab ends without a dismiss message. |
| LauncherMenu.Menu.BindAsWritten | src/launcher-menu.c:531-547 | As written: a second bind posts BOUND, and destroying the refused resource runs the unbind destructor. The first client loses the global and its grab ends silently. |
| LauncherMenu.Menu.Bind | src/launcher-menu.c:531-547 | Corrected: the first client gets the global. A second is refused with BOUND and the binding is unchanged. |
| LauncherMenu.RebindAsWritten | src/launcher-menu.c:539-544 | Two binds in turn through the handler as written leave no client bound. |
| LauncherMenu.Rebind | src/launcher-menu.c:539-544 | Two binds in turn: the first client keeps the global and the second gets one BOUND error. |
| DockManager.ShrinkBy | src/dock-manager.c:110-121 | A TOP dock moves the top edge down by its height and keeps the bottom edge (the fall-through). BOTTOM keeps the origin and raises the bottom edge. LEFT and RIGHT do the same horizontally. |
| DockManager.WorkareaClosedForm | src/dock-manager.c:98-128 | The workarea lies inward of each output edge by the summed thickness of that edge's docks. |
| DockManager.EdgeTotalPermutation | src/dock-manager.c:108-125 | The summed thickness on an edge does not depend on the order of the docks. |
| DockManager.WorkareaPermutation | src/dock-manager.c:98-128 | The workarea does not depend on the order in which the docks were created. |
| DockManager.StackedClosedForm | src/dock-manager.c:164-188 | Stacking moves a dock inward by exactly the summed thickness of the other docks on its edge. Docks on other edges have no effect. |
| DockManager.PlacementAbutsWorkarea | src/dock-manager.c:147-188 | A stacked dock lies flush against the workarea the other docks leave. Adding the dock shrinks that workarea by exactly the band it covers. |
| DockManager.Drop | src/dock-manager.c:131-136 | Dropping an output's entries keeps every entry of every other output and nothing else. |
| DockManager.WithoutIsDrop | src/dock-manager.c:327-337 | Removing the only entry of an output is the same as dropping that output. |
| DockManager.Dock.StackedPosition | src/dock-manager.c:147-188 | The loop's position is exactly Placement(): the initial corner, stacked past every other dock of the output on the same edge. |
| DockManager.Dock.SurfaceCommitted | src/dock-manager.c:139-196 | A commit of a mapped dock changes nothing. The first commit maps the view at Placement(). |
| DockManager.Dock.ViewDestroyed | src/dock-manager.c:199-205 | The dock forgets its view. |
| DockManager.Manager.Lookup | src/dock-manager.c:81-85 | The entry found is in the list and belongs to the output; none is found only when the output has no entry. |
| DockManager.Manager.FindOutput | src/dock-manager.c:77-95 | The existing entry is returned unchanged. A new empty one is added at the front only when there is none, so each output keeps at most one entry. |
| DockManager.Manager.ShrinkArea | src/dock-manager.c:110-124 | The fall-through `switch` computes ShrinkBy for one dock. |
| DockManager.Manager.GetWorkarea | src/dock-manager.c:98-128 | The loop's result is the Workarea fold of the output rectangle over the entry's docks. |
| DockManager.Manager.OutputWorkArea | src/dock-manager.c:300-306 | The hook reports the Workarea of the output's docks (none when it has no entry), keeping the registry valid. Nothing registers this hook in the source (dock-manager.c:362 leaves it as a TODO), so it is dead code there. |
| DockManager.Manager.CreateDock | src/dock-manager.c:225-292 | A surface with another role is refused with ROLE and nothing else changes. Otherwise DEFAULT becomes BOTTOM and the dock goes on the named output, or the last one. It gets a new unmapped view and goes first on that output's (found or new) entry. Other entries are unchanged. Its configure carries the workarea computed before it was inserted. |
| DockManager.Manager.NewDock | src/dock-manager.c:260-291 | The successful half of create_dock: view, configure with the workarea of the entry's other docks, then insertion at the front. |
| DockManager.Manager.PushDock | src/dock-manager.c:291 | The dock goes first on its entry's list. |
| DockManager.Manager.DockDestroyed | src/dock-manager.c:208-218 | The dock's view, if any, is destroyed (DestroyView: it leaves the compositor's views, view list and its surface's view list), and the dock leaves its output's list. Compositor validity is kept. |
| DockManager.Manager.OutputDestroyed | src/dock-manager.c:327-337 | The output's entry leaves the list; an entry the lookup has just created goes too. Every other entry stays. |
| DockManager.Manager.Bind | src/dock-manager.c:315-324 | Any number of clients may bind; each resource goes first on the list. |
| DockManager.Manager.Unbind | src/dock-manager.c:309-312 | The resource leaves the list. |
| NotificationArea.Area.SetOutput | src/notification-area.c:162-186 | The workarea is zero for no output, else the shell hook's, else the output rectangle. It is stored. A geometry event is sent exactly when it changed and a client is bound. |
| NotificationArea.Area.Unbind | src/notification-area.c:189-194 | The global is free again. |
| NotificationArea.Area.Bind | src/notification-area.c:197-218 | Corrected: a second bind is refused with BOUND and the binding, output and workarea are kept. The first bind follows the first output when there is none yet; otherwise it re-sends the current geometry. |
| NotificationArea.Area.BindAsWritten | src/notification-area.c:197-218 | As written: a refused second bind leaves the global unbound. An accepted bind behaves as Bind's: it follows the first output when there is none yet (geometry sent when the workarea is not zero), otherwise it re-sends the current geometry. |
| NotificationArea.Area.OutputCreated | src/notification-area.c:221-227 | Acts only when the area has no output; it then follows the first output, and a bound client gets its geometry exactly when the new workarea is not zero. |
| NotificationArea.Area.OutputDestroyed | src/notification-area.c:230-237 | Acts only when the area follows that output; it then moves to the first remaining output, or none, and a bound client gets the new geometry exactly when the workarea changed. |
| NotificationArea.Area.OutputMoved | src/notification-area.c:240-247 | Acts only for the followed output. The workarea is read again, with geometry sent only if it changed. |
| NotificationArea.Area.CreateNotification | src/notification-area.c:117-154 | A surface with another role is refused with ROLE. Otherwise it takes the notification role and gets a new unmapped view. |
| NotificationArea.Notification.Move | src/notification-area.c:76-91 | The view goes to the requested position plus the workarea origin and is mapped. |
| NotificationArea.Notification.ResourceDestroyed | src/notification-area.c:99-104 | The notification forgets its resource. |
| NotificationArea.RebindAsWritten | src/notification-area.c:205-210 | Two binds in turn through the handler as written leave no client bound. |
| NotificationArea.Rebind | src/notification-area.c:205-210 | Two binds in turn: the first client keeps the global and the second gets one BOUND error. |
| WindowSwitcher.Permitted | src/window-switcher.c:104-112 | A request may act exactly when the seat has a keyboard and the keyboard's, pointer's or touch device's grab serial equals the request's. |
| WindowSwitcher.Announcement | src/window-switcher.c:184-192 | The window event comes first and done last. The title comes second when there is one, and the app id comes just before done when there is one. There are no other messages. |
| WindowSwitcher.AnnouncedExactly | src/window-switcher.c:149-161 | Binding announces a window exactly when some view shows it, it has a desktop surface, and it is not already listed. |
| WindowSwitcher.AnnouncedByOne | src/window-switcher.c:149-193 | window_create announces only its own surface, and only for an unlisted surface with a desktop surface. |
| WindowSwitcher.Window.SwitchTo | src/window-switcher.c:95-113 | When Permitted, the seat's keyboard focus moves to the window's surface. Otherwise the seats are unchanged. |
| WindowSwitcher.Window.Close | src/window-switcher.c:116-133 | The window's surface is asked to close exactly when Permitted. |
| WindowSwitcher.Window.SurfaceDestroyed | src/window-switcher.c:70-75 | The window forgets its surface. |
| WindowSwitcher.Switcher.IsListed | src/window-switcher.c:157-161 | The scan finds a window exactly when one in the list stands for the surface. |
| WindowSwitcher.Switcher.WindowCreate | src/window-switcher.c:149-193 | A window is created exactly for an unlisted surface with a desktop surface, and its Announcement is sent. The list of windows is not changed. |
| WindowSwitcher.Switcher.Bind | src/window-switcher.c:208-229 | Corrected: a second bind is refused with BOUND and client and binding are kept. The first records the client and announces the window of every view, in view-list order. |
| WindowSwitcher.Switcher.AnnounceAll | src/window-switcher.c:226-228 | The loop sends exactly the Announcements of the views in order. |
| WindowSwitcher.Switcher.BindAsWritten | src/window-switcher.c:208-229 | As written: a refused second bind leaves the global unbound. |
| WindowSwitcher.Switcher.Unbind | src/window-switcher.c:200-205 | The global is free again. |
| WindowSwitcher.RebindAsWritten | src/window-switcher.c:216-221 | Two binds in turn through the handler as written leave no client bound. |
| WindowSwitcher.Rebind | src/window-switcher.c:216-221 | Two binds in turn: the first client keeps the global and the second gets one BOUND error. |
| WindowSwitcher.AnnounceTitledWindow | src/window-switcher.c:184-192 | One view of a titled desktop surface without app id is announced as the window, its title, then done. |

## Left out

- `src/background.c`: its fitting and scaling are floating-point arithmetic.
- Wayland transport and module start-up are not modelled: resource and global creation, implementations, listeners, `wet_module_init`/`module_init`. Bound resources are plain ids.
- Rendering: damage, repaint scheduling, layers and view transforms. A view is reduced to a position and a mapped flag.
- The input forwarders of the menu grab (key, modifiers, motion, axis, frame, touch down/up/motion) are not modelled. Only button forwarding is recorded.
- Hit-testing is a parameter (a `Pick`) of PointerFocus and of the show requests, whose grab start re-picks the pointer focus. The running shell's work-area hook is a host field.
- Allocation failures (`zalloc`, `weston_view_create`, `wl_resource_create` returning NULL) and the no-memory errors they post.
- Empty handlers: the launcher's output-destroyed listener (src/launcher-menu.c:550-554) and the window `show` request (src/window-switcher.c:136-139).
- The launcher's seat-destroy listener (src/launcher-menu.c:302-307) is not modelled. A grab record stays registered after its seat goes.
- Ending a pointer grab re-picks the pointer focus through weston's default grab. The model leaves the focus as it was.
- 32-bit overflow of `int32_t` positions and sizes is not modelled. Only the 32-bit millisecond clock wraps (Elapsed).
- ShrinkBy and Workarea: the workarea's width and height are `uint32_t` in `pixman_rectangle32_t`. Docks thicker than what remains would wrap them to large values; the model lets them go negative instead.
- The window `view` field and its `view_destroyed` handler (src/window-switcher.c:78-84) are not modelled: window_create never sets or listens on a view.
- The window resource destructor (src/window-switcher.c:87-92) reads the window's user data as the switcher and clears a field through it. It is not modelled.
- The notification area's `destroy` request handler (src/notification-area.c:107-114) reads the area's user data as a notification. It is not modelled. A notification's view is never destroyed.
- After a dock's output is destroyed, its docks keep pointing to the freed entry. The model keeps the entry object alive.
- Surface destruction passes `dismiss=false` (src/launcher-menu.c:394), so no dismiss is sent. The model follows the code.
- After the as-written second bind, the first client's show requests would post errors on a NULL binding. The rest of the model uses the corrected Bind.
- LauncherMenu.Menu.SurfaceCommitted: requires the grabbing seat's pointer for at-pointer placement, because the code reads it even after the grab has ended.
- LauncherMenu.Menu.ShowCommon: requires a seat when the show would succeed (the code dereferences it). DEFAULT placement requires an output, and SURFACE placement a target view (MenuPosition).
- LauncherMenu.Menu.ShowAtSurface: requires the anchor to exist. For a keyboard match the focus must be set and have a view, because the code reads the focus's view list without checking. The method uses the corrected anchor (AnchorView); the code's misread anchor is AnchorAsWritten (see Findings).
- DockManager.Manager.CreateDock: requires an output to exist when none is named, because the code takes the last element of the output list without checking.
- NotificationArea.Area.SetOutput: excludes a workarea change to no output while bound, because the geometry send reads the output's scale. OutputDestroyed carries the same exclusion.
- WindowSwitcher.Window.SwitchTo: requires the window's surface to be alive, because the code reads it before any check. Close requires it only when the request is permitted.
- WindowSwitcher.Switcher.WindowCreate: nothing ever adds to `windows`, so the duplicate check never fires. A surface shown by two views is announced twice. This is modelled as written.

## Findings

| source | as written | input that shows it | evidently intended | confidence | as-written member | corrected member |
|---|---|---|---|---|---|---|
| src/launcher-menu.c:536-544 | The unbind handler is installed as the new resource's destructor before the "already bound" check. `wl_resource_destroy` on the refused resource runs it, clearing `binding` and ending the grab. | bind(r1), then bind(r2) | r2 is refused with BOUND and r1 keeps the global | high, not executed | LauncherMenu.RebindAsWritten | LauncherMenu.Rebind |
| src/notification-area.c:202-210 | Same ordering: the refused resource's destructor clears `binding`. | bind(r1), then bind(r2) | r2 is refused with BOUND and r1 keeps the global | high, not executed | NotificationArea.RebindAsWritten | NotificationArea.Rebind |
| src/window-switcher.c:213-221 | Same ordering: the refused resource's destructor clears `binding`. | bind(r1), then bind(r2) | r2 is refused with BOUND and r1 keeps the global | high, not executed | WindowSwitcher.RebindAsWritten | WindowSwitcher.Rebind |
| src/launcher-menu.c:494 | The keyboard branch applies `wl_container_of` to the focus surface's first view-list node but names the view's `link` member, while weston chains a surface's views through `surface_link`. The anchor is shifted off the view, and update_position (360-361) reads its geometry through it. | show_at_surface whose serial is the keyboard's last grab serial, focus surface with one view | the anchor is the focus surface's first view | medium (relies on weston's `weston_view` layout), not executed | LauncherMenu.KeyboardAnchorAsWritten | LauncherMenu.AnchorView |
