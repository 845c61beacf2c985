/**
 * The window switcher (zww_window_switcher_v1): a singleton global whose
 * client is told, when it binds, about every shown surface that has a
 * desktop surface (its title and application id) and may ask to focus or
 * close one, provided the request carries the serial of a recent input
 * event on the seat.
 */
module WindowSwitcher {
  import opened Host

  datatype SwitcherError = BoundError

  /** Messages the switcher sends; a window is named by its surface. */
  datatype SwitcherEvent =
    | NewWindow(to: ResourceId, surface: SurfaceId)
    | Title(surface: SurfaceId, title: string)
    | AppId(surface: SurfaceId, appId: string)
    | Done(surface: SurfaceId)
    | ProtocolError(to: ResourceId, code: SwitcherError)

  /**
   * A request may act on a window only when the seat has a keyboard and the
   * serial is the last grab serial of its keyboard, pointer or touch device.
   */
  function Permitted(st: Seat, serial: u32): (ok: bool)
    ensures ok <==> st.keyboard.Some? && (KeyboardMatches(st, serial) || PointerMatches(st, serial) || TouchMatches(st, serial))
  {
    st.keyboard.Some? && FirstGrabMatch(st, serial).Some?
  }

  /**
   * The messages announcing one window: the window itself, then its title
   * and its application id when it has them, then done.
   */
  function Announcement(to: ResourceId, s: SurfaceId, d: Desktop): (es: seq<SwitcherEvent>)
    ensures |es| == 2 + (if d.title.Some? then 1 else 0) + (if d.appId.Some? then 1 else 0)
    ensures es[0] == NewWindow(to, s) && es[|es| - 1] == Done(s)
    ensures d.title.Some? ==> es[1] == Title(s, d.title.value)
    ensures d.appId.Some? ==> es[|es| - 2] == AppId(s, d.appId.value)
    ensures forall i :: 0 < i < |es| ==> (es[i].Title? || es[i].AppId? || es[i].Done?) && es[i].surface == s
  {
    [NewWindow(to, s)]
    + (if d.title.Some? then [Title(s, d.title.value)] else [])
    + (if d.appId.Some? then [AppId(s, d.appId.value)] else [])
    + [Done(s)]
  }

  /** What creating a window for surface `s` announces: nothing for a surface without a desktop surface or already listed. */
  function AnnounceOne(to: ResourceId, s: SurfaceId, surfaces: map<SurfaceId, Surface>, listed: set<SurfaceId>): seq<SwitcherEvent>
    requires s in surfaces
  {
    match surfaces[s].desktop
    case None => []
    case Some(d) => if s in listed then [] else Announcement(to, s, d)
  }

  /** What binding announces: one AnnounceOne per view of the list, in list order. */
  function Announcements(to: ResourceId, vs: seq<ViewId>, views: map<ViewId, View>,
                         surfaces: map<SurfaceId, Surface>, listed: set<SurfaceId>): seq<SwitcherEvent>
    requires forall v :: v in vs ==> v in views && views[v].surface in surfaces
    decreases |vs|
  {
    if vs == [] then []
    else Announcements(to, vs[..|vs| - 1], views, surfaces, listed)
         + AnnounceOne(to, views[vs[|vs| - 1]].surface, surfaces, listed)
  }

  lemma AnnouncementsStep(to: ResourceId, vs: seq<ViewId>, i: nat, views: map<ViewId, View>,
                          surfaces: map<SurfaceId, Surface>, listed: set<SurfaceId>)
    requires i < |vs| && forall v :: v in vs ==> v in views && views[v].surface in surfaces
    ensures Announcements(to, vs[..i + 1], views, surfaces, listed)
            == Announcements(to, vs[..i], views, surfaces, listed) + AnnounceOne(to, views[vs[i]].surface, surfaces, listed)
  {
    assert vs[..i + 1][..i] == vs[..i];
  }

  lemma Associative<T>(a: seq<T>, b: seq<T>, c: seq<T>)
    ensures (a + b) + c == a + (b + c)
  {
  }

  /** The surfaces the views `vs` show. */
  function ShownSurfaces(vs: seq<ViewId>, views: map<ViewId, View>): set<SurfaceId>
    requires forall v :: v in vs ==> v in views
  {
    set i | 0 <= i < |vs| :: views[vs[i]].surface
  }

  /**
   * Binding announces exactly the desktop-surface windows that some view shows and
   * that are not listed already.
   */
  lemma {:induction false} AnnouncedExactly(to: ResourceId, vs: seq<ViewId>, views: map<ViewId, View>,
                                            surfaces: map<SurfaceId, Surface>, listed: set<SurfaceId>, s: SurfaceId)
    requires forall v :: v in vs ==> v in views && views[v].surface in surfaces
    ensures NewWindow(to, s) in Announcements(to, vs, views, surfaces, listed)
            <==> s in ShownSurfaces(vs, views) && surfaces[s].desktop.Some? && s !in listed
    decreases |vs|
  {
    if vs != [] {
      var front := vs[..|vs| - 1];
      var last := views[vs[|vs| - 1]].surface;
      AnnouncedExactly(to, front, views, surfaces, listed, s);
      ShownSurfacesSnoc(vs, views);
      AnnouncedByOne(to, last, surfaces, listed, s);
    }
  }

  lemma ShownSurfacesSnoc(vs: seq<ViewId>, views: map<ViewId, View>)
    requires vs != [] && forall v :: v in vs ==> v in views
    ensures ShownSurfaces(vs, views) == ShownSurfaces(vs[..|vs| - 1], views) + {views[vs[|vs| - 1]].surface}
  {
    var front := vs[..|vs| - 1];
    forall x | x in ShownSurfaces(vs, views)
      ensures x in ShownSurfaces(front, views) + {views[vs[|vs| - 1]].surface}
    {
      var i :| 0 <= i < |vs| && views[vs[i]].surface == x;
      if i < |vs| - 1 {
        assert front[i] == vs[i];
      }
    }
    forall x | x in ShownSurfaces(front, views)
      ensures x in ShownSurfaces(vs, views)
    {
      var i :| 0 <= i < |front| && views[front[i]].surface == x;
      assert vs[i] == front[i];
    }
    assert views[vs[|vs| - 1]].surface in ShownSurfaces(vs, views);
  }

  /** The only window AnnounceOne announces is its own, and only when it is an unlisted desktop surface. */
  lemma AnnouncedByOne(to: ResourceId, t: SurfaceId, surfaces: map<SurfaceId, Surface>, listed: set<SurfaceId>, s: SurfaceId)
    requires t in surfaces
    ensures NewWindow(to, s) in AnnounceOne(to, t, surfaces, listed) <==> s == t && surfaces[s].desktop.Some? && s !in listed
  {
    var one := AnnounceOne(to, t, surfaces, listed);
    if NewWindow(to, s) in one {
      var k :| 0 <= k < |one| && one[k] == NewWindow(to, s);
      assert k == 0;
    }
  }

  /** A window the switcher created: the desktop surface it stands for, until that surface is destroyed. */
  class Window {
    const host: Compositor
    var surface: Option<SurfaceId>

    constructor (host: Compositor, surface: SurfaceId)
      ensures this.host == host && this.surface == Some(surface)
    {
      this.host := host;
      this.surface := Some(surface);
    }

    /**
     * switch_to: when Permitted, the seat's keyboard focus moves to the
     * window's surface; otherwise nothing changes.
     */
    method SwitchTo(id: SeatId, serial: u32)
      requires host.Valid() && id in host.seats && surface.Some? && surface.value in host.surfaces
      modifies host`seats
      ensures host.Valid()
      ensures !Permitted(old(host.seats[id]), serial) ==> host.seats == old(host.seats)
      ensures Permitted(old(host.seats[id]), serial) ==>
                var st := old(host.seats[id]);
                host.seats == old(host.seats)[id := st.(keyboard := Some(st.keyboard.value.(focus := surface)))]
    {
      var target := surface;
      var st := host.seats[id];
      if st.keyboard.None? {
        return;
      }
      var device := FirstGrabMatch(st, serial);
      if device.Some? {
        host.seats := host.seats[id := st.(keyboard := Some(st.keyboard.value.(focus := target)))];
      }
    }

    /**
     * close: when Permitted, the window's surface is asked to close (the
     * result names it); otherwise nothing is asked.
     */
    method Close(id: SeatId, serial: u32) returns (closed: Option<SurfaceId>)
      requires id in host.seats
      requires Permitted(host.seats[id], serial) ==> surface.Some?
      ensures closed.Some? <==> Permitted(host.seats[id], serial)
      ensures closed.Some? ==> closed == surface
    {
      var st := host.seats[id];
      if st.keyboard.None? {
        return None;
      }
      var device := FirstGrabMatch(st, serial);
      if device.Some? {
        return surface;
      }
      return None;
    }

    /** The window's desktop surface is destroyed. */
    method SurfaceDestroyed()
      modifies this`surface
      ensures surface.None?
    {
      surface := None;
    }
  }

  class Switcher {
    const host: Compositor
    var client: Option<ClientId>
    var binding: Option<ResourceId>
    /** The windows created so far; the handlers never add to this list. */
    var windows: seq<Window>
    var events: seq<SwitcherEvent>

    constructor (host: Compositor)
      ensures this.host == host && client.None? && binding.None? && windows == [] && events == []
    {
      this.host := host;
      client, binding := None, None;
      windows, events := [], [];
    }

    /** The surfaces of the listed windows. */
    ghost function Listed(): set<SurfaceId>
      reads this`windows, windows
    {
      set w | w in windows && w.surface.Some? :: w.surface.value
    }

    /** Whether a listed window stands for surface `s`. */
    method IsListed(s: SurfaceId) returns (found: bool)
      ensures found <==> s in Listed()
    {
      var i := 0;
      while i < |windows|
        invariant 0 <= i <= |windows|
        invariant forall k :: 0 <= k < i ==> windows[k].surface != Some(s)
      {
        if windows[i].surface == Some(s) {
          assert windows[i] in windows;
          return true;
        }
        i := i + 1;
      }
      assert forall w :: w in windows ==> w.surface != Some(s) by {
        forall w | w in windows
          ensures w.surface != Some(s)
        {
          var k :| 0 <= k < |windows| && windows[k] == w;
        }
      }
      return false;
    }

    /**
     * Creates and announces a window for surface `s`, unless the surface has
     * no desktop surface or is already listed.  The new window is not added to the
     * list.
     */
    method WindowCreate(s: SurfaceId) returns (w: Window?)
      requires binding.Some? && s in host.surfaces
      modifies this`events
      ensures Listed() == old(Listed()) && binding == old(binding)
      ensures events == old(events) + AnnounceOne(binding.value, s, host.surfaces, Listed())
      ensures w != null <==> host.surfaces[s].desktop.Some? && s !in Listed()
      ensures w != null ==> fresh(w) && w.host == host && w.surface == Some(s)
    {
      var desktop := host.surfaces[s].desktop;
      if desktop.None? {
        return null;
      }
      var listed := IsListed(s);
      if listed {
        return null;
      }
      w := new Window(host, s);
      var title, appId := desktop.value.title, desktop.value.appId;
      events := events + [NewWindow(binding.value, s)];
      if title.Some? {
        events := events + [Title(s, title.value)];
      }
      if appId.Some? {
        events := events + [AppId(s, appId.value)];
      }
      events := events + [Done(s)];
    }

    /**
     * bind: a second client is refused with BOUND and the first keeps the
     * global; the first client is recorded and told about the window of every
     * view, in view-list order.
     */
    method Bind(c: ClientId, r: ResourceId)
      requires host.Valid()
      modifies this`client, this`binding, this`events
      ensures old(binding).Some? ==>
                binding == old(binding) && client == old(client) && events == old(events) + [ProtocolError(r, BoundError)]
      ensures old(binding).None? ==>
                && binding == Some(r) && client == Some(c)
                && events == old(events) + Announcements(r, host.viewList, host.views, host.surfaces, Listed())
    {
      if binding.Some? {
        events := events + [ProtocolError(r, BoundError)];
        return;
      }
      client := Some(c);
      binding := Some(r);
      assert host.ViewListValid() && host.ViewSurfacesLive();
      AnnounceAll(host.viewList, host.views, host.surfaces);
    }

    /** Runs WindowCreate for the surface of every view of `vs`, in order. */
    method AnnounceAll(vs: seq<ViewId>, views: map<ViewId, View>, surfaces: map<SurfaceId, Surface>)
      requires binding.Some? && surfaces == host.surfaces
      requires forall v :: v in vs ==> v in views && views[v].surface in surfaces
      modifies this`events
      ensures events == old(events) + Announcements(binding.value, vs, views, surfaces, Listed())
    {
      var to := binding.value;
      ghost var listed := Listed();
      var i := 0;
      while i < |vs|
        invariant 0 <= i <= |vs| && binding == Some(to) && Listed() == listed
        invariant events == old(events) + Announcements(to, vs[..i], views, surfaces, listed)
      {
        ghost var sent := events;
        var w := WindowCreate(views[vs[i]].surface);
        AnnouncementsStep(to, vs, i, views, surfaces, listed);
        Associative(old(events), Announcements(to, vs[..i], views, surfaces, listed), AnnounceOne(to, views[vs[i]].surface, surfaces, listed));
        i := i + 1;
      }
      assert vs[..i] == vs;
    }

    /**
     * bind as written: the unbind handler is the destructor of the new
     * resource and is installed before the "already bound" check, so
     * destroying a refused resource frees the global held by the first client.
     */
    method BindAsWritten(c: ClientId, r: ResourceId)
      requires host.Valid()
      modifies this`client, this`binding, this`events
      ensures old(binding).Some? ==>
                binding.None? && client == old(client) && events == old(events) + [ProtocolError(r, BoundError)]
      ensures old(binding).None? ==>
                && binding == Some(r) && client == Some(c)
                && events == old(events) + Announcements(r, host.viewList, host.views, host.surfaces, Listed())
    {
      if binding.Some? {
        events := events + [ProtocolError(r, BoundError)];
        Unbind();
        return;
      }
      Bind(c, r);
    }

    /** The bound client goes away. */
    method Unbind()
      modifies this`binding
      ensures binding.None?
    {
      binding := None;
    }
  }

  lemma AnnouncementsOfOne(to: ResourceId, v: ViewId, views: map<ViewId, View>,
                           surfaces: map<SurfaceId, Surface>, listed: set<SurfaceId>)
    requires v in views && views[v].surface in surfaces
    ensures Announcements(to, [v], views, surfaces, listed) == AnnounceOne(to, views[v].surface, surfaces, listed)
  {
    assert [v][..0] == [];
  }

  lemma TitledAnnouncement(to: ResourceId, s: SurfaceId, title: string)
    ensures Announcement(to, s, Desktop(Some(title), None)) == [NewWindow(to, s), Title(s, title), Done(s)]
  {
  }

  /** Two clients bind in turn through the handler as written: the refused second bind leaves the global unbound. */
  method RebindAsWritten() returns (first: Option<ResourceId>, after: Option<ResourceId>)
    ensures first == Some(1) && after == None
  {
    var host := new Compositor();
    var switcher := new Switcher(host);
    switcher.BindAsWritten(7, 1);
    first := switcher.binding;
    switcher.BindAsWritten(8, 2);
    after := switcher.binding;
  }

  /** Two clients bind in turn: the second is refused with BOUND and the first keeps the global. */
  method Rebind() returns (after: Option<ResourceId>, errors: seq<SwitcherEvent>)
    ensures after == Some(1) && errors == [ProtocolError(2, BoundError)]
  {
    var host := new Compositor();
    var switcher := new Switcher(host);
    switcher.Bind(7, 1);
    switcher.Bind(8, 2);
    after, errors := switcher.binding, switcher.events;
  }

  /**
   * Binding with one titled desktop-surface window, shown by one view, announces
   * the window, its title and done, in that order.
   */
  method AnnounceTitledWindow() returns (es: seq<SwitcherEvent>)
    ensures es == [NewWindow(1, 5), Title(5, "term"), Done(5)]
  {
    var host := new Compositor();
    host.surfaces := map[5 := Surface(640, 480, None, None, [0], Some(Desktop(Some("term"), None)))];
    host.views := map[0 := View(5, 0, 0, true)];
    host.viewList := [0];
    host.nextView := 1;
    var switcher := new Switcher(host);
    assert switcher.Listed() == {};
    switcher.Bind(7, 1);
    AnnouncementsOfOne(1, 0, host.views, host.surfaces, {});
    TitledAnnouncement(1, 5, "term");
    es := switcher.events;
  }
}
