/**
 * The launcher menu (zww_launcher_menu_v1): a singleton global whose one
 * client may show a single popup surface, placed at the centre of an output,
 * at the pointer or below a rectangle of another surface.  While the popup is
 * shown, every input device of one seat runs the menu's grab; the grab ends,
 * and the client is told to dismiss the menu, when a button is released
 * outside the menu or the grab is cancelled.
 */
module LauncherMenu {
  import opened Host

  /** The role the popup surface takes. */
  const MenuRole := "ww_launcher_menu"

  /**
   * Milliseconds after the press that opened the grab during which releasing
   * that first button outside the menu does not dismiss it.
   */
  const DismissDelay := 500

  const TimeModulus := 0x1_0000_0000

  datatype Placement = PlaceDefault | PlaceAtPointer | PlaceAtSurface

  /** The view and rectangle (in that view's coordinates) a menu shown at a surface hangs below. */
  datatype Target = Target(view: Option<ViewId>, geometry: Rect)

  datatype MenuError = RoleError | UniqueError | SerialError | BoundError

  /**
   * What weston_compositor_pick_view finds under a pointer: a view or none,
   * and whether that view's surface has a client resource.
   */
  datatype Pick = Pick(view: Option<ViewId>, hasResource: bool)

  /** Messages the menu sends: to its client, or to the client that has the pointer focus. */
  datatype MenuEvent =
    | Dismissed(to: ResourceId)
    | ProtocolError(to: ResourceId, code: MenuError)
    | ButtonForwarded(time: u32, button: nat, released: bool)

  /** The grab starts "initially up" when no pointer button is held. */
  predicate InitialUp(st: Seat) {
    st.pointer.None? || st.pointer.value.buttonCount == 0
  }

  /**
   * The seat once the menu grab is installed: every device the seat has runs
   * the menu grab; a device that was not already running it has its focus
   * moved to the menu (its surface for the keyboard, its view for touch).
   * The pointer's focus is set to the menu view too, but starting the grab
   * runs the grab's focus handler at once, so it ends as FocusUnderGrab of
   * what `pick` finds under the pointer.  Nothing else about any device
   * changes.
   */
  function GrabStarted(st: Seat, s: SurfaceId, v: ViewId, pick: Pick): (r: Seat)
    ensures r.keyboard.Some? == st.keyboard.Some? && r.pointer.Some? == st.pointer.Some? && r.touch.Some? == st.touch.Some?
    ensures r.keyboard.Some? ==>
              var k, k0 := r.keyboard.value, st.keyboard.value;
              k.menuGrab && k.grabSerial == k0.grabSerial && k.focus == (if k0.menuGrab then k0.focus else Some(s))
    ensures r.pointer.Some? ==>
              var p, p0 := r.pointer.value, st.pointer.value;
              p.menuGrab && p.(focus := p0.focus, menuGrab := p0.menuGrab) == p0
              && p.focus == (if p0.menuGrab then p0.focus else FocusUnderGrab(pick, Some(v)))
    ensures r.touch.Some? ==>
              var t, t0 := r.touch.value, st.touch.value;
              t.menuGrab && t.grabSerial == t0.grabSerial && t.focus == (if t0.menuGrab then t0.focus else Some(v))
  {
    Seat(
      match st.keyboard
      case None => None
      case Some(k) => if k.menuGrab then st.keyboard else Some(k.(focus := Some(s), menuGrab := true)),
      match st.pointer
      case None => None
      case Some(p) => if p.menuGrab then st.pointer else Some(p.(focus := FocusUnderGrab(pick, Some(v)), menuGrab := true)),
      match st.touch
      case None => None
      case Some(t) => if t.menuGrab then st.touch else Some(t.(focus := Some(v), menuGrab := true)))
  }

  /**
   * The seat once the menu grab is ended: no device of the seat runs the
   * menu grab any more, and nothing else about any device changes.
   */
  function GrabEnded(st: Seat): (r: Seat)
    ensures r.keyboard.Some? == st.keyboard.Some? && r.pointer.Some? == st.pointer.Some? && r.touch.Some? == st.touch.Some?
    ensures r.keyboard.Some? ==> !r.keyboard.value.menuGrab && r.keyboard.value.(menuGrab := st.keyboard.value.menuGrab) == st.keyboard.value
    ensures r.pointer.Some? ==> !r.pointer.value.menuGrab && r.pointer.value.(menuGrab := st.pointer.value.menuGrab) == st.pointer.value
    ensures r.touch.Some? ==> !r.touch.value.menuGrab && r.touch.value.(menuGrab := st.touch.value.menuGrab) == st.touch.value
  {
    Seat(
      match st.keyboard case None => None case Some(k) => Some(k.(menuGrab := false)),
      match st.pointer case None => None case Some(p) => Some(p.(menuGrab := false)),
      match st.touch case None => None case Some(t) => Some(t.(menuGrab := false)))
  }

  /** Ending the grab right after starting it gives back every device's grab state; only focus may have moved. */
  lemma EndAfterStart(st: Seat, s: SurfaceId, v: ViewId, pick: Pick)
    requires st.keyboard.Some? ==> !st.keyboard.value.menuGrab
    requires st.pointer.Some? ==> !st.pointer.value.menuGrab
    requires st.touch.Some? ==> !st.touch.value.menuGrab
    ensures var r := GrabEnded(GrabStarted(st, s, v, pick));
            && (r.keyboard.Some? ==> r.keyboard.value == st.keyboard.value.(focus := Some(s)))
            && (r.pointer.Some? ==> r.pointer.value == st.pointer.value.(focus := FocusUnderGrab(pick, Some(v))))
            && (r.touch.Some? ==> r.touch.value == st.touch.value.(focus := Some(v)))
            && r.keyboard.Some? == st.keyboard.Some? && r.pointer.Some? == st.pointer.Some? && r.touch.Some? == st.touch.Some?
  {
    var started := GrabStarted(st, s, v, pick);
    if st.pointer.Some? {
      assert started.pointer.value == st.pointer.value.(focus := FocusUnderGrab(pick, Some(v)), menuGrab := true);
    }
  }

  /** Milliseconds from `since` to `time` on the wrapping 32-bit millisecond clock. */
  function Elapsed(time: u32, since: u32): (d: u32)
    ensures since <= time ==> d == time - since
    ensures time < since ==> d == time + TimeModulus - since
  {
    (time - since) % TimeModulus
  }

  /**
   * Whether a button release outside the menu ends the grab: always once a
   * button has been released during the grab (or none was held when it
   * started), otherwise only after the dismiss delay.
   */
  predicate ReleaseDismisses(initialUp: bool, time: u32, grabTime: u32) {
    initialUp || Elapsed(time, grabTime) > DismissDelay
  }

  /**
   * Press-and-drag selection: the release of the button that opened the menu
   * keeps it open when it comes within the delay, and any later release
   * outside it dismisses it, however soon it comes.
   */
  lemma ReleaseTimeline(grabTime: u32, first: u32, later: u32)
    requires grabTime <= first <= grabTime + DismissDelay
    ensures !ReleaseDismisses(false, first, grabTime)
    ensures ReleaseDismisses(true, later, grabTime)
    ensures first < 0x1_0000_0000 - 1 - DismissDelay ==> ReleaseDismisses(false, grabTime + DismissDelay + 1, grabTime)
  {
    assert Elapsed(first, grabTime) == first - grabTime;
  }

  /** The messages ending a grab sends: a dismiss to the bound client when asked for and there is one. */
  function Dismissal(dismiss: bool, binding: Option<ResourceId>): (es: seq<MenuEvent>)
    ensures |es| <= 1
    ensures es != [] <==> dismiss && binding.Some?
    ensures es != [] ==> es[0] == Dismissed(binding.value)
  {
    if dismiss && binding.Some? then [Dismissed(binding.value)] else []
  }

  /**
   * The pointer focus the menu grab allows: the view under the pointer only
   * when it is the menu's own view and its surface has a client resource;
   * otherwise no focus at all.
   */
  function FocusUnderGrab(pick: Pick, menuView: Option<ViewId>): (f: Option<ViewId>)
    ensures f.Some? ==> f == pick.view && f == menuView
    ensures f.None? <==> !(pick.view.Some? && pick.hasResource && pick.view == menuView)
  {
    if pick.view.Some? && pick.hasResource && pick.view == menuView then pick.view else None
  }

  /** C's `n / 2` on a signed int, which truncates toward zero. */
  function Half(n: int): (h: int)
    ensures n >= 0 ==> n - 1 <= 2 * h <= n
    ensures n < 0 ==> n <= 2 * h <= n + 1
  {
    if n >= 0 then n / 2 else -((-n) / 2)
  }

  /**
   * The top-left corner that centres a `width` x `height` surface on an
   * output: off the exact centre by at most half a pixel in each direction,
   * with the output's and the surface's sizes each halved and rounded down
   * before they are subtracted.
   */
  function Centred(out: Rect, width: int, height: int): (p: Point)
    ensures out.width >= 0 && width >= 0 ==> -1 <= 2 * (p.x - out.x) - (out.width - width) <= 1
    ensures out.height >= 0 && height >= 0 ==> -1 <= 2 * (p.y - out.y) - (out.height - height) <= 1
    ensures out.width >= 0 && width >= 0 ==> 2 * (p.x - out.x) == (out.width - out.width % 2) - (width - width % 2)
    ensures out.height >= 0 && height >= 0 ==> 2 * (p.y - out.y) == (out.height - out.height % 2) - (height - height % 2)
  {
    Point(out.x + (Half(out.width) - Half(width)), out.y + (Half(out.height) - Half(height)))
  }

  /**
   * The output a newly shown menu goes on: the output of the surface with
   * the seat's keyboard focus when there is one, otherwise the first output.
   */
  function MenuOutput(kb: Option<Keyboard>, surfaces: map<SurfaceId, Surface>, outputList: seq<OutputId>): Option<OutputId> {
    if kb.Some? && kb.value.focus.Some? && kb.value.focus.value in surfaces && surfaces[kb.value.focus.value].output.Some?
    then surfaces[kb.value.focus.value].output
    else First(outputList)
  }

  /** Whether the anchor of a show_at_surface request can be read from the device whose serial matched. */
  predicate AnchorDefined(st: Seat, d: Device, surfaces: map<SurfaceId, Surface>) {
    match d
    case KeyboardDevice =>
      st.keyboard.Some? && st.keyboard.value.focus.Some? && st.keyboard.value.focus.value in surfaces
      && surfaces[st.keyboard.value.focus.value].views != []
    case PointerDevice => st.pointer.Some?
    case TouchDevice => st.touch.Some?
  }

  /**
   * The view a show_at_surface request anchors to: the first (most recently
   * created) view of the keyboard focus, or the pointer's or the touch
   * device's focus view.
   */
  function AnchorView(st: Seat, d: Device, surfaces: map<SurfaceId, Surface>): (a: Option<ViewId>)
    requires AnchorDefined(st, d, surfaces)
    ensures d == KeyboardDevice ==>
              var sf := surfaces[st.keyboard.value.focus.value];
              a.Some? && a.value in sf.views && a.value == sf.views[0]
    ensures d == PointerDevice ==> a == st.pointer.value.focus
    ensures d == TouchDevice ==> a == st.touch.value.focus
  {
    match d
    case KeyboardDevice => Some(surfaces[st.keyboard.value.focus.value].views[0])
    case PointerDevice => st.pointer.value.focus
    case TouchDevice => st.touch.value.focus
  }

  /**
   * A view pointer as show_at_surface computes it: null, a view, or the
   * address `wl_container_of` gives for view `node` when handed the node
   * that links the view into its surface's view list while naming the
   * view's compositor-list link instead.  That address is shifted from the
   * view by the distance between the two links and is no view at all.
   */
  datatype ViewPointer = NullView | ViewAt(id: ViewId) | Shifted(node: ViewId)

  /**
   * The anchor as the code computes it: for a keyboard match the focus
   * surface's first view-list node goes through `wl_container_of` with the
   * wrong link member, so the anchor is shifted off that view.
   */
  function AnchorAsWritten(st: Seat, d: Device, surfaces: map<SurfaceId, Surface>): (a: ViewPointer)
    requires AnchorDefined(st, d, surfaces)
    ensures d == KeyboardDevice ==> a.Shifted? && a.node in surfaces[st.keyboard.value.focus.value].views
    ensures d != KeyboardDevice ==> !a.Shifted? && (a.NullView? <==> AnchorView(st, d, surfaces).None?)
    ensures a.ViewAt? ==> AnchorView(st, d, surfaces) == Some(a.id)
  {
    match d
    case KeyboardDevice => Shifted(surfaces[st.keyboard.value.focus.value].views[0])
    case PointerDevice => if st.pointer.value.focus.Some? then ViewAt(st.pointer.value.focus.value) else NullView
    case TouchDevice => if st.touch.value.focus.Some? then ViewAt(st.touch.value.focus.value) else NullView
  }

  /**
   * A show_at_surface whose serial is the keyboard's last grab serial: the
   * code as written anchors to a shifted address, where the focus surface's
   * view 7 was meant.
   */
  lemma KeyboardAnchorAsWritten()
    ensures var st := Seat(Some(Keyboard(5, Some(1), false)), None, None);
            var surfaces := map[1 := Surface(100, 40, None, None, [7], None)];
            && FirstGrabMatch(st, 5) == Some(KeyboardDevice)
            && AnchorDefined(st, KeyboardDevice, surfaces)
            && AnchorAsWritten(st, KeyboardDevice, surfaces) == Shifted(7)
            && AnchorView(st, KeyboardDevice, surfaces) == Some(7)
  {
  }

  /** The menu's grab record for one seat, created the first time the menu grabs that seat and reused after. */
  class MenuSeat {
    const seat: SeatId
    var initialUp: bool

    constructor (seat: SeatId)
      ensures this.seat == seat && !initialUp
    {
      this.seat := seat;
      initialUp := false;
    }
  }

  class Menu {
    const host: Compositor
    var binding: Option<ResourceId>
    var output: Option<OutputId>
    var surface: Option<SurfaceId>
    var view: Option<ViewId>
    /** The seat whose devices run the menu grab, if any. */
    var grabSeat: MenuSeat?
    var position: Placement
    var target: Target
    /** The grab record of every seat the menu has grabbed so far. */
    var menuSeats: map<SeatId, MenuSeat>
    var events: seq<MenuEvent>
    ghost var Repr: set<MenuSeat>

    ghost predicate SeatsValid()
      reads this
    {
      && (forall id :: id in menuSeats ==> menuSeats[id] in Repr && menuSeats[id].seat == id)
      && (grabSeat != null ==> grabSeat.seat in menuSeats && menuSeats[grabSeat.seat] == grabSeat)
    }

    /** A grab runs only while a menu surface is shown. */
    ghost predicate Valid()
      reads this
    {
      SeatsValid() && (grabSeat != null ==> surface.Some?)
    }

    constructor (host: Compositor)
      ensures Valid() && this.host == host
      ensures binding.None? && output.None? && surface.None? && view.None? && grabSeat == null
      ensures menuSeats == map[] && events == [] && Repr == {}
    {
      this.host := host;
      binding, output, surface, view := None, None, None, None;
      grabSeat := null;
      position := PlaceDefault;
      target := Target(None, ZeroRect);
      menuSeats := map[];
      events := [];
      Repr := {};
    }

    /** The grab record of a seat: the existing one when the menu grabbed that seat before, else a new one. */
    method SeatFromSeat(id: SeatId) returns (ms: MenuSeat)
      requires Valid()
      modifies this`menuSeats, this`Repr
      ensures Valid() && old(Repr) <= Repr && ms in Repr && ms.seat == id
      ensures id in old(menuSeats) ==> ms == old(menuSeats[id]) && menuSeats == old(menuSeats) && Repr == old(Repr)
      ensures id !in old(menuSeats) ==> fresh(ms) && !ms.initialUp && menuSeats == old(menuSeats)[id := ms]
    {
      if id in menuSeats {
        ms := menuSeats[id];
        return;
      }
      ms := new MenuSeat(id);
      menuSeats := menuSeats[id := ms];
      Repr := Repr + {ms};
    }

    /** Installs the menu grab on every device of the seat and records whether it started with no button held. */
    method GrabStart(ms: MenuSeat, pick: Pick)
      requires host.Valid() && ms.seat in host.seats
      requires surface.Some? && view.Some? && surface.value in host.surfaces
      modifies ms`initialUp, host`seats
      ensures host.Valid()
      ensures host.seats == old(host.seats)[ms.seat := GrabStarted(old(host.seats[ms.seat]), surface.value, view.value, pick)]
      ensures ms.initialUp == InitialUp(old(host.seats[ms.seat]))
    {
      var st := host.seats[ms.seat];
      host.seats := host.seats[ms.seat := GrabStarted(st, surface.value, view.value, pick)];
      ms.initialUp := InitialUp(st);
    }

    /**
     * Ends the menu grab on the seat of `ms` (nothing when there is none),
     * optionally telling the client to dismiss the menu; afterwards no seat
     * is grabbed.
     */
    method GrabEnd(ms: MenuSeat?, dismiss: bool)
      requires SeatsValid() && host.Valid()
      requires ms != null ==> ms.seat in host.seats
      modifies this`grabSeat, this`events, host`seats
      ensures SeatsValid() && host.Valid()
      ensures ms == null ==> grabSeat == old(grabSeat) && events == old(events) && host.seats == old(host.seats)
      ensures ms != null ==>
                && grabSeat == null
                && host.seats == old(host.seats)[ms.seat := GrabEnded(old(host.seats[ms.seat]))]
                && events == old(events) + Dismissal(dismiss, binding)
    {
      if ms == null {
        return;
      }
      var st := host.seats[ms.seat];
      host.seats := host.seats[ms.seat := GrabEnded(st)];
      events := events + Dismissal(dismiss, binding);
      grabSeat := null;
    }

    /** A keyboard, pointer or touch grab cancelled by the compositor ends the grab and dismisses the menu. */
    method GrabCancel(ms: MenuSeat)
      requires Valid() && host.Valid() && ms.seat in host.seats
      modifies this`grabSeat, this`events, host`seats
      ensures Valid() && host.Valid()
      ensures grabSeat == null
      ensures host.seats == old(host.seats)[ms.seat := GrabEnded(old(host.seats[ms.seat]))]
      ensures events == old(events) + Dismissal(true, binding)
    {
      GrabEnd(ms, true);
    }

    /** Pointer focus under the grab: only the menu's own view may have it. */
    method PointerFocus(ms: MenuSeat, pick: Pick)
      requires host.Valid() && ms.seat in host.seats && host.seats[ms.seat].pointer.Some?
      modifies host`seats
      ensures host.Valid()
      ensures var st := old(host.seats[ms.seat]);
              host.seats == old(host.seats)[ms.seat := st.(pointer := Some(st.pointer.value.(focus := FocusUnderGrab(pick, view))))]
    {
      var st := host.seats[ms.seat];
      var focus := FocusUnderGrab(pick, view);
      host.seats := host.seats[ms.seat := st.(pointer := Some(st.pointer.value.(focus := focus)))];
    }

    /**
     * A pointer button under the grab: forwarded when the pointer focus has a
     * client resource; otherwise a release ends the grab and dismisses the
     * menu when ReleaseDismisses says so.  Any release marks the grab as
     * having seen a button go up.
     */
    method PointerButton(ms: MenuSeat, time: u32, button: nat, released: bool, focusHasResource: bool)
      requires Valid() && host.Valid() && ms.seat in host.seats && host.seats[ms.seat].pointer.Some?
      modifies ms`initialUp, this`grabSeat, this`events, host`seats
      ensures Valid() && host.Valid()
      ensures ms.initialUp == (old(ms.initialUp) || released)
      ensures focusHasResource ==>
                events == old(events) + [ButtonForwarded(time, button, released)]
                && grabSeat == old(grabSeat) && host.seats == old(host.seats)
      ensures !focusHasResource && released && ReleaseDismisses(old(ms.initialUp), time, old(host.seats[ms.seat]).pointer.value.grabTime) ==>
                && grabSeat == null
                && host.seats == old(host.seats)[ms.seat := GrabEnded(old(host.seats[ms.seat]))]
                && events == old(events) + Dismissal(true, binding)
      ensures !focusHasResource && !(released && ReleaseDismisses(old(ms.initialUp), time, old(host.seats[ms.seat]).pointer.value.grabTime)) ==>
                events == old(events) && grabSeat == old(grabSeat) && host.seats == old(host.seats)
    {
      var initialUp := ms.initialUp;
      if released {
        ms.initialUp := true;
      }
      var grabTime := host.seats[ms.seat].pointer.value.grabTime;
      if focusHasResource {
        events := events + [ButtonForwarded(time, button, released)];
      } else if released && ReleaseDismisses(initialUp, time, grabTime) {
        GrabEnd(ms, true);
      }
    }

    /** What a refused show request leaves behind: one protocol error on the binding and nothing else. */
    twostate predicate Rejected(code: MenuError)
      reads this`binding, this`events, this`surface, this`view, this`output, this`grabSeat, this`menuSeats, this`Repr
      reads host`seats, host`surfaces, host`views
    {
      && old(binding).Some?
      && events == old(events) + [ProtocolError(old(binding).value, code)]
      && surface == old(surface) && view == old(view) && output == old(output)
      && grabSeat == old(grabSeat) && menuSeats == old(menuSeats) && Repr == old(Repr)
      && host.seats == old(host.seats) && host.surfaces == old(host.surfaces) && host.views == old(host.views)
    }

    /**
     * What a successful show leaves behind: the surface has the menu role and
     * a new unmapped view, the menu sits on MenuOutput, and seat `id` runs
     * the menu grab through its (reused or new) grab record.
     */
    twostate predicate Shown(s: SurfaceId, id: SeatId, pick: Pick)
      reads this`binding, this`events, this`surface, this`view, this`output, this`grabSeat, this`menuSeats, this`Repr
      reads host`seats, host`surfaces, host`views, host`outputList, grabSeat
    {
      && surface == Some(s)
      && view.Some? && view.value !in old(host.views)
      && host.views == old(host.views)[view.value := View(s, 0, 0, false)]
      && s in old(host.surfaces)
      && host.surfaces == old(host.surfaces)[s := old(host.surfaces[s]).(role := Some(MenuRole), views := [view.value] + old(host.surfaces[s]).views)]
      && id in old(host.seats)
      && output == MenuOutput(old(host.seats[id]).keyboard, host.surfaces, host.outputList)
      && grabSeat != null && grabSeat.seat == id
      && (id in old(menuSeats) ==> grabSeat == old(menuSeats[id]) && menuSeats == old(menuSeats))
      && (id !in old(menuSeats) ==> fresh(grabSeat) && menuSeats == old(menuSeats)[id := grabSeat])
      && grabSeat.initialUp == InitialUp(old(host.seats[id]))
      && host.seats == old(host.seats)[id := GrabStarted(old(host.seats[id]), s, view.value, pick)]
      && events == old(events)
    }

    /**
     * The outcome of showing surface `s` for `seat`: refused with UNIQUE
     * while another menu surface is shown, refused with ROLE when the surface
     * has another role, shown otherwise.
     */
    twostate predicate ShowOutcome(s: SurfaceId, seat: Option<SeatId>, pick: Pick)
      reads this`binding, this`events, this`surface, this`view, this`output, this`grabSeat, this`menuSeats, this`Repr
      reads host`seats, host`surfaces, host`views, host`outputList, grabSeat
    {
      if old(surface).Some? then Rejected(UniqueError)
      else if s !in old(host.surfaces) || !RoleFree(old(host.surfaces[s]), MenuRole) then Rejected(RoleError)
      else seat.Some? && Shown(s, seat.value, pick)
    }

    method ShowCommon(s: SurfaceId, seat: Option<SeatId>, pick: Pick)
      requires Valid() && host.Valid() && binding.Some? && s in host.surfaces
      requires seat.Some? ==> seat.value in host.seats
      requires surface.None? && RoleFree(host.surfaces[s], MenuRole) ==> seat.Some?
      modifies this`surface, this`view, this`output, this`grabSeat, this`menuSeats, this`Repr, this`events, Repr
      modifies host`seats, host`surfaces, host`views, host`nextView
      ensures Valid() && host.Valid() && old(Repr) <= Repr
      ensures ShowOutcome(s, seat, pick)
      ensures forall m :: m in old(Repr) && (m != grabSeat || grabSeat == old(grabSeat)) ==> m.initialUp == old(m.initialUp)
    {
      if surface.Some? {
        events := events + [ProtocolError(binding.value, UniqueError)];
        return;
      }
      if !RoleFree(host.surfaces[s], MenuRole) {
        events := events + [ProtocolError(binding.value, RoleError)];
        return;
      }
      ShowNew(s, seat.value, pick);
    }

    /** The accepted half of ShowCommon: role, view, output and grab for a menu that was not shown. */
    method ShowNew(s: SurfaceId, id: SeatId, pick: Pick)
      requires Valid() && host.Valid() && s in host.surfaces && id in host.seats
      requires surface.None? && RoleFree(host.surfaces[s], MenuRole)
      modifies this`surface, this`view, this`output, this`grabSeat, this`menuSeats, this`Repr, Repr
      modifies host`seats, host`surfaces, host`views, host`nextView
      ensures Valid() && host.Valid() && old(Repr) <= Repr
      ensures Shown(s, id, pick)
      ensures forall m :: m in old(Repr) && (m != grabSeat || grabSeat == old(grabSeat)) ==> m.initialUp == old(m.initialUp)
    {
      Attach(s, id);
      var ms := SeatFromSeat(id);
      grabSeat := ms;
      GrabStart(ms, pick);
    }

    /** Gives surface `s` the menu role and a new view, and puts the menu on its output. */
    method Attach(s: SurfaceId, id: SeatId)
      requires Valid() && host.Valid() && s in host.surfaces && id in host.seats
      requires surface.None? && RoleFree(host.surfaces[s], MenuRole)
      modifies this`surface, this`view, this`output, host`surfaces, host`views, host`nextView
      ensures Valid() && host.Valid()
      ensures surface == Some(s) && view.Some? && view.value !in old(host.views)
      ensures host.views == old(host.views)[view.value := View(s, 0, 0, false)]
      ensures host.surfaces == old(host.surfaces)[s := old(host.surfaces[s]).(role := Some(MenuRole), views := [view.value] + old(host.surfaces[s]).views)]
      ensures output == MenuOutput(host.seats[id].keyboard, host.surfaces, host.outputList)
    {
      var ok := host.SetRole(s, MenuRole);
      surface := Some(s);
      var v := host.CreateView(s);
      view := Some(v);
      output := MenuOutput(host.seats[id].keyboard, host.surfaces, host.outputList);
    }

    /** show: the menu on the default (first) seat, centred on its output. */
    method Show(s: SurfaceId, pick: Pick)
      requires Valid() && host.Valid() && binding.Some? && s in host.surfaces
      requires First(host.seatList).Some? ==> First(host.seatList).value in host.seats
      requires surface.None? && RoleFree(host.surfaces[s], MenuRole) ==> host.seatList != []
      modifies this`surface, this`view, this`output, this`grabSeat, this`menuSeats, this`Repr, this`events, Repr, this`position
      modifies host`seats, host`surfaces, host`views, host`nextView
      ensures Valid() && host.Valid()
      ensures ShowOutcome(s, First(old(host.seatList)), pick)
      ensures forall m :: m in old(Repr) && (m != grabSeat || grabSeat == old(grabSeat)) ==> m.initialUp == old(m.initialUp)
      ensures position == PlaceDefault && target == old(target)
    {
      ShowCommon(s, First(host.seatList), pick);
      position := PlaceDefault;
    }

    /**
     * show_at_pointer: refused with SERIAL unless the seat has a pointer whose
     * last grab serial is `serial`; otherwise the menu is shown at the pointer.
     */
    method ShowAtPointer(s: SurfaceId, id: SeatId, serial: u32, pick: Pick)
      requires Valid() && host.Valid() && binding.Some? && s in host.surfaces && id in host.seats
      modifies this`surface, this`view, this`output, this`grabSeat, this`menuSeats, this`Repr, this`events, Repr, this`position
      modifies host`seats, host`surfaces, host`views, host`nextView
      ensures Valid() && host.Valid()
      ensures forall m :: m in old(Repr) && (m != grabSeat || grabSeat == old(grabSeat)) ==> m.initialUp == old(m.initialUp)
      ensures !PointerMatches(old(host.seats[id]), serial) ==>
                Rejected(SerialError) && position == old(position) && target == old(target)
      ensures PointerMatches(old(host.seats[id]), serial) ==>
                ShowOutcome(s, Some(id), pick) && position == PlaceAtPointer && target == old(target)
    {
      if !PointerMatches(host.seats[id], serial) {
        events := events + [ProtocolError(binding.value, SerialError)];
        return;
      }
      ShowCommon(s, Some(id), pick);
      position := PlaceAtPointer;
    }

    /**
     * show_at_surface: the serial must match the last grab of the seat's
     * keyboard, pointer or touch device (checked in that order), which names
     * the anchor view; otherwise the request is refused with SERIAL.
     */
    method ShowAtSurface(s: SurfaceId, id: SeatId, serial: u32, x: int, y: int, width: int, height: int, pick: Pick)
      requires Valid() && host.Valid() && binding.Some? && s in host.surfaces && id in host.seats
      requires FirstGrabMatch(host.seats[id], serial).Some? ==>
                 AnchorDefined(host.seats[id], FirstGrabMatch(host.seats[id], serial).value, host.surfaces)
      modifies this`surface, this`view, this`output, this`grabSeat, this`menuSeats, this`Repr, this`events, Repr
      modifies this`position, this`target, host`seats, host`surfaces, host`views, host`nextView
      ensures Valid() && host.Valid()
      ensures forall m :: m in old(Repr) && (m != grabSeat || grabSeat == old(grabSeat)) ==> m.initialUp == old(m.initialUp)
      ensures FirstGrabMatch(old(host.seats[id]), serial).None? ==>
                Rejected(SerialError) && position == old(position) && target == old(target)
      ensures FirstGrabMatch(old(host.seats[id]), serial).Some? ==>
                && ShowOutcome(s, Some(id), pick)
                && position == PlaceAtSurface
                && target == Target(AnchorView(old(host.seats[id]), FirstGrabMatch(old(host.seats[id]), serial).value, old(host.surfaces)),
                                    Rect(x, y, width, height))
    {
      var st := host.seats[id];
      var device := FirstGrabMatch(st, serial);
      if device.None? {
        events := events + [ProtocolError(binding.value, SerialError)];
        return;
      }
      var anchor := AnchorView(st, device.value, host.surfaces);
      ShowCommon(s, Some(id), pick);
      position := PlaceAtSurface;
      target := Target(anchor, Rect(x, y, width, height));
    }

    /** Whether everything the current placement reads exists. */
    predicate PlacementDefined()
      reads this, host
    {
      && surface.Some? && surface.value in host.surfaces && view.Some? && view.value in host.views
      && match position
         case PlaceDefault => output.Some? && output.value in host.outputs
         case PlaceAtPointer => grabSeat != null && grabSeat.seat in host.seats && host.seats[grabSeat.seat].pointer.Some?
         case PlaceAtSurface => target.view.Some? && target.view.value in host.views
    }

    /**
     * Where the menu goes: centred on its output, at the integer position of
     * the grabbing seat's pointer, or with its top-left corner at the
     * bottom-left corner of the target rectangle.
     */
    function MenuPosition(): (p: Point)
      reads this, host
      requires PlacementDefined()
      ensures position == PlaceDefault ==>
                var a, sf := host.outputs[output.value].area, host.surfaces[surface.value];
                && (a.width >= 0 && sf.width >= 0 ==>
                      && -1 <= 2 * (p.x - a.x) - (a.width - sf.width) <= 1
                      && 2 * (p.x - a.x) == (a.width - a.width % 2) - (sf.width - sf.width % 2))
                && (a.height >= 0 && sf.height >= 0 ==>
                      && -1 <= 2 * (p.y - a.y) - (a.height - sf.height) <= 1
                      && 2 * (p.y - a.y) == (a.height - a.height % 2) - (sf.height - sf.height % 2))
      ensures position == PlaceAtPointer ==>
                var ptr := host.seats[grabSeat.seat].pointer.value;
                && (ptr.x >= 0 ==> 0 <= p.x * 256 <= ptr.x < (p.x + 1) * 256)
                && (ptr.x < 0 ==> (p.x - 1) * 256 < ptr.x <= p.x * 256 <= 0)
                && (ptr.y >= 0 ==> 0 <= p.y * 256 <= ptr.y < (p.y + 1) * 256)
                && (ptr.y < 0 ==> (p.y - 1) * 256 < ptr.y <= p.y * 256 <= 0)
      ensures position == PlaceAtSurface ==>
                var tv := host.views[target.view.value];
                p.x - tv.x == target.geometry.x && p.y - target.geometry.height - tv.y == target.geometry.y
    {
      match position
      case PlaceDefault =>
        Centred(host.outputs[output.value].area, host.surfaces[surface.value].width, host.surfaces[surface.value].height)
      case PlaceAtPointer =>
        var ptr := host.seats[grabSeat.seat].pointer.value;
        Point(FixedToInt(ptr.x), FixedToInt(ptr.y))
      case PlaceAtSurface =>
        var tv := host.views[target.view.value];
        Point(tv.x + target.geometry.x, tv.y + target.geometry.y + target.geometry.height)
    }

    /** A commit of the menu surface maps its view (once) and moves it to MenuPosition. */
    method SurfaceCommitted()
      requires PlacementDefined() && host.Valid()
      modifies host`views
      ensures host.Valid()
      ensures host.views == old(host.views)[view.value := old(host.views[view.value]).(x := old(MenuPosition()).x, y := old(MenuPosition()).y, mapped := true)]
    {
      var p := MenuPosition();
      var v := host.views[view.value];
      host.views := host.views[view.value := v.(x := p.x, y := p.y, mapped := true)];
    }

    /** The grab of the menu (if any) ended without a dismiss message. */
    twostate predicate ReleasedSilently()
      reads this`grabSeat, this`events, host`seats
    {
      && grabSeat == null && events == old(events)
      && (old(grabSeat) == null ==> host.seats == old(host.seats))
      && (old(grabSeat) != null ==>
            old(grabSeat).seat in old(host.seats)
            && host.seats == old(host.seats)[old(grabSeat).seat := GrabEnded(old(host.seats[grabSeat.seat]))])
    }

    /** The menu surface is destroyed: the menu forgets it and ends the grab without a dismiss. */
    method SurfaceDestroyed()
      requires Valid() && host.Valid() && (grabSeat != null ==> grabSeat.seat in host.seats)
      modifies this`surface, this`grabSeat, this`events, host`seats
      ensures Valid() && host.Valid()
      ensures surface.None? && ReleasedSilently()
    {
      surface := None;
      GrabEnd(grabSeat, false);
    }

    /** The menu view is destroyed: the menu forgets it. */
    method ViewDestroyed()
      modifies this`view
      ensures view.None?
    {
      view := None;
    }

    /** The bound client goes away: the global is free again and the grab ends without a dismiss. */
    method Unbind()
      requires Valid() && host.Valid() && (grabSeat != null ==> grabSeat.seat in host.seats)
      modifies this`binding, this`grabSeat, this`events, host`seats
      ensures Valid() && host.Valid()
      ensures binding.None? && ReleasedSilently()
    {
      binding := None;
      GrabEnd(grabSeat, false);
    }

    /**
     * bind as written: the unbind handler is installed as the destructor of
     * the new resource before the "already bound" check, so destroying a
     * refused resource runs it and frees the global held by the first client.
     */
    method BindAsWritten(r: ResourceId)
      requires Valid() && host.Valid() && (grabSeat != null ==> grabSeat.seat in host.seats)
      modifies this`binding, this`grabSeat, this`events, host`seats
      ensures Valid() && host.Valid()
      ensures old(binding).None? ==>
                binding == Some(r) && events == old(events) && grabSeat == old(grabSeat) && host.seats == old(host.seats)
      ensures old(binding).Some? ==>
                && binding.None? && events == old(events) + [ProtocolError(r, BoundError)]
                && grabSeat == null
                && (old(grabSeat) == null ==> host.seats == old(host.seats))
                && (old(grabSeat) != null ==> host.seats == old(host.seats)[old(grabSeat).seat := GrabEnded(old(host.seats[grabSeat.seat]))])
    {
      if binding.Some? {
        events := events + [ProtocolError(r, BoundError)];
        Unbind();
        return;
      }
      binding := Some(r);
    }

    /** bind: only one client may hold the global; a second is refused with BOUND and the first keeps it. */
    method Bind(r: ResourceId)
      modifies this`binding, this`events
      ensures old(binding).None? ==> binding == Some(r) && events == old(events)
      ensures old(binding).Some? ==> binding == old(binding) && events == old(events) + [ProtocolError(r, BoundError)]
    {
      if binding.Some? {
        events := events + [ProtocolError(r, BoundError)];
        return;
      }
      binding := Some(r);
    }
  }

  /** Two clients bind in turn through the handler as written: the refused second bind leaves the global unbound. */
  method RebindAsWritten() returns (first: Option<ResourceId>, after: Option<ResourceId>)
    ensures first == Some(1) && after == None
  {
    var host := new Compositor();
    var menu := new Menu(host);
    menu.BindAsWritten(1);
    first := menu.binding;
    menu.BindAsWritten(2);
    after := menu.binding;
  }

  /** Two clients bind in turn: the second is refused with BOUND and the first keeps the global. */
  method Rebind() returns (after: Option<ResourceId>, errors: seq<MenuEvent>)
    ensures after == Some(1) && errors == [ProtocolError(2, BoundError)]
  {
    var host := new Compositor();
    var menu := new Menu(host);
    menu.Bind(1);
    menu.Bind(2);
    after, errors := menu.binding, menu.events;
  }
}
