/**
 * The host compositor as the shell modules see it: seats and their input
 * devices, outputs, surfaces and views.  All of this is owned by weston; the
 * modules read it and change only what they are allowed to change (device
 * focus and grabs, the position and mapping of their own views, the role of
 * a surface).  Rendering, damage and repaint scheduling are not part of it.
 */
module Host {

  datatype Option<T> = None | Some(value: T)

  /** An integer rectangle (pixman_rectangle32_t, weston_geometry). */
  datatype Rect = Rect(x: int, y: int, width: int, height: int)

  datatype Point = Point(x: int, y: int)

  const ZeroRect := Rect(0, 0, 0, 0)

  type SeatId = nat
  type OutputId = nat
  type SurfaceId = nat
  type ViewId = nat
  type ResourceId = nat
  type ClientId = nat

  /** An unsigned 32-bit protocol value: an event serial or a timestamp in milliseconds. */
  type u32 = x: int | 0 <= x < 0x1_0000_0000

  /**
   * An input device of a seat.  `grabSerial` is the serial of the event that
   * started the device's last implicit grab; `menuGrab` says whether the grab
   * the device currently runs is the launcher menu's.
   */
  datatype Keyboard = Keyboard(grabSerial: u32, focus: Option<SurfaceId>, menuGrab: bool)

  /** `x` and `y` are the pointer position as 24.8 fixed-point values. */
  datatype Pointer = Pointer(grabSerial: u32, focus: Option<ViewId>, menuGrab: bool,
                             buttonCount: nat, x: int, y: int, grabTime: u32)

  datatype Touch = Touch(grabSerial: u32, focus: Option<ViewId>, menuGrab: bool)

  datatype Seat = Seat(keyboard: Option<Keyboard>, pointer: Option<Pointer>, touch: Option<Touch>)

  datatype Device = KeyboardDevice | PointerDevice | TouchDevice

  /** The title and application id a desktop (xdg) surface advertises. */
  datatype Desktop = Desktop(title: Option<string>, appId: Option<string>)

  /**
   * A surface: its current size, its role (assignable once), the output it
   * is on, its views (most recently created first) and, for a
   * window, its desktop surface (libweston-desktop's, toplevel or popup).
   */
  datatype Surface = Surface(width: int, height: int, role: Option<string>, output: Option<OutputId>,
                             views: seq<ViewId>, desktop: Option<Desktop>)

  /** A view: the surface it shows, its global position and whether it is mapped. */
  datatype View = View(surface: SurfaceId, x: int, y: int, mapped: bool)

  datatype Output = Output(area: Rect, scale: int)

  predicate KeyboardMatches(st: Seat, serial: u32) {
    st.keyboard.Some? && st.keyboard.value.grabSerial == serial
  }

  predicate PointerMatches(st: Seat, serial: u32) {
    st.pointer.Some? && st.pointer.value.grabSerial == serial
  }

  predicate TouchMatches(st: Seat, serial: u32) {
    st.touch.Some? && st.touch.value.grabSerial == serial
  }

  /**
   * The device whose last grab a request's serial refers to, checking the
   * keyboard, then the pointer, then the touch device, and taking the first
   * that matches.
   */
  function FirstGrabMatch(st: Seat, serial: u32): (d: Option<Device>)
    ensures d.None? <==> !KeyboardMatches(st, serial) && !PointerMatches(st, serial) && !TouchMatches(st, serial)
    ensures d == Some(KeyboardDevice) <==> KeyboardMatches(st, serial)
    ensures d == Some(PointerDevice) <==> !KeyboardMatches(st, serial) && PointerMatches(st, serial)
    ensures d == Some(TouchDevice) ==> st.touch.Some? && st.touch.value.grabSerial == serial
  {
    if KeyboardMatches(st, serial) then Some(KeyboardDevice)
    else if PointerMatches(st, serial) then Some(PointerDevice)
    else if TouchMatches(st, serial) then Some(TouchDevice)
    else None
  }

  /** wl_fixed_to_int: the integer part of a 24.8 fixed-point value, truncated toward zero. */
  function FixedToInt(f: int): (n: int)
    ensures f >= 0 ==> 0 <= n * 256 <= f < (n + 1) * 256
    ensures f < 0 ==> (n - 1) * 256 < f <= n * 256 <= 0
  {
    if f >= 0 then f / 256 else -((-f) / 256)
  }

  /** The first element of a compositor list, if any (the default seat or output). */
  function First<T>(list: seq<T>): (r: Option<T>)
    ensures r.None? <==> list == []
    ensures r.Some? ==> r.value == list[0]
  {
    if list == [] then None else Some(list[0])
  }

  /** The last element of a compositor list, if any. */
  function Last<T>(list: seq<T>): (r: Option<T>)
    ensures r.None? <==> list == []
    ensures r.Some? ==> r.value == list[|list| - 1]
  {
    if list == [] then None else Some(list[|list| - 1])
  }

  /** `s` without the element `x` (wl_list_remove of a node). */
  function Without<T(==)>(s: seq<T>, x: T): (r: seq<T>)
    ensures forall y :: y in r ==> y in s && y != x
    ensures forall y :: y in s && y != x ==> y in r
    ensures x !in s ==> r == s
    decreases |s|
  {
    if s == [] then []
    else Without(s[..|s| - 1], x) + (if s[|s| - 1] == x then [] else [s[|s| - 1]])
  }

  /** weston_surface_set_role succeeds when the surface has no role yet or already has this one. */
  predicate RoleFree(sf: Surface, role: string) {
    sf.role.None? || sf.role == Some(role)
  }

  predicate KeyboardFocusIn(st: Seat, surfaces: map<SurfaceId, Surface>) {
    st.keyboard.Some? && st.keyboard.value.focus.Some? ==> st.keyboard.value.focus.value in surfaces
  }

  /**
   * The compositor state.  The environment (clients, input drivers, output
   * hot-plugging) may change any of these fields between two calls into a
   * module; the modules change only what their `modifies` clauses name.
   */
  class Compositor {
    var seats: map<SeatId, Seat>
    /** compositor->seat_list, in list order. */
    var seatList: seq<SeatId>
    var outputs: map<OutputId, Output>
    /** compositor->output_list, in list order. */
    var outputList: seq<OutputId>
    var surfaces: map<SurfaceId, Surface>
    var views: map<ViewId, View>
    /** compositor->view_list, in list order. */
    var viewList: seq<ViewId>
    /** Every view id in use is below this one. */
    var nextView: nat
    /** shell_interface.get_output_work_area, when a shell provides it. */
    var workAreaHook: Option<OutputId -> Rect>

    ghost predicate Valid()
      reads this
    {
      && ViewIdsFresh() && FocusesLive() && SeatListValid() && OutputListValid()
      && ViewListValid() && ViewSurfacesLive()
    }

    /** Every view id in use is below nextView. */
    ghost predicate ViewIdsFresh()
      reads this`views, this`nextView
    {
      forall v :: v in views ==> v < nextView
    }

    /** A keyboard focus names a live surface. */
    ghost predicate FocusesLive()
      reads this`seats, this`surfaces
    {
      forall id :: id in seats ==> KeyboardFocusIn(seats[id], surfaces)
    }

    ghost predicate SeatListValid()
      reads this`seatList, this`seats
    {
      forall i :: 0 <= i < |seatList| ==> seatList[i] in seats
    }

    ghost predicate OutputListValid()
      reads this`outputList, this`outputs
    {
      forall i :: 0 <= i < |outputList| ==> outputList[i] in outputs
    }

    ghost predicate ViewListValid()
      reads this`viewList, this`views
    {
      forall i :: 0 <= i < |viewList| ==> viewList[i] in views
    }

    /** Every view shows a live surface. */
    ghost predicate ViewSurfacesLive()
      reads this`views, this`surfaces
    {
      forall v :: v in views ==> views[v].surface in surfaces
    }

    constructor ()
      ensures Valid()
      ensures seats == map[] && seatList == [] && outputs == map[] && outputList == []
      ensures surfaces == map[] && views == map[] && viewList == [] && workAreaHook.None?
    {
      seats, seatList := map[], [];
      outputs, outputList := map[], [];
      surfaces, views, viewList := map[], map[], [];
      nextView := 0;
      workAreaHook := None;
    }

    /** weston_surface_set_role: a surface takes a role at most once. */
    method SetRole(s: SurfaceId, role: string) returns (ok: bool)
      requires Valid() && s in surfaces
      modifies this`surfaces
      ensures Valid()
      ensures ok == RoleFree(old(surfaces[s]), role)
      ensures ok ==> surfaces == old(surfaces)[s := old(surfaces[s]).(role := Some(role))]
      ensures !ok ==> surfaces == old(surfaces)
    {
      ok := RoleFree(surfaces[s], role);
      if ok {
        surfaces := surfaces[s := surfaces[s].(role := Some(role))];
      }
    }

    /** weston_view_create: a new, unmapped view at the origin, first in the surface's view list. */
    method CreateView(s: SurfaceId) returns (v: ViewId)
      requires Valid() && s in surfaces
      modifies this`views, this`nextView, this`surfaces
      ensures Valid()
      ensures v !in old(views)
      ensures views == old(views)[v := View(s, 0, 0, false)]
      ensures surfaces == old(surfaces)[s := old(surfaces[s]).(views := [v] + old(surfaces[s]).views)]
    {
      v := nextView;
      nextView := nextView + 1;
      views := views[v := View(s, 0, 0, false)];
      surfaces := surfaces[s := surfaces[s].(views := [v] + surfaces[s].views)];
    }

    /**
     * weston_view_destroy: the view goes, and with it its entries in its
     * surface's view list and in the compositor's view list.
     */
    method DestroyView(v: ViewId)
      requires Valid() && v in views
      modifies this`views, this`surfaces, this`viewList
      ensures Valid()
      ensures views == old(views) - {v}
      ensures viewList == Without(old(viewList), v)
      ensures var s := old(views[v]).surface;
              surfaces == old(surfaces)[s := old(surfaces[s]).(views := Without(old(surfaces[s]).views, v))]
    {
      var s := views[v].surface;
      surfaces := surfaces[s := surfaces[s].(views := Without(surfaces[s].views, v))];
      views := views - {v};
      viewList := Without(viewList, v);
      assert forall i :: 0 <= i < |viewList| ==> viewList[i] in viewList;
    }
  }
}
