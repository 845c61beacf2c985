/**
 * The notification area (zww_notification_area_v1): a singleton global that
 * follows one output, tells its client the size of that output's workarea,
 * and places notification surfaces relative to the workarea's origin.
 */
module NotificationArea {
  import opened Host

  /** The role a notification surface takes. */
  const NotificationRole := "ww_notification"

  datatype AreaError = RoleError | BoundError

  datatype AreaEvent =
    | Geometry(to: ResourceId, width: int, height: int, scale: int)
    | ProtocolError(to: ResourceId, code: AreaError)

  class Area {
    const host: Compositor
    var binding: Option<ResourceId>
    /** The output the area follows, if any. */
    var output: Option<OutputId>
    var workarea: Rect
    var events: seq<AreaEvent>

    /** Without an output the stored workarea is all zeros. */
    ghost predicate Valid()
      reads this`output, this`workarea
    {
      output.None? ==> workarea == ZeroRect
    }

    constructor (host: Compositor)
      ensures Valid() && this.host == host && binding.None? && output.None? && events == []
    {
      this.host := host;
      binding, output := None, None;
      workarea := ZeroRect;
      events := [];
    }

    /**
     * The workarea of an output: all zeros for no output, otherwise what the
     * shell's work-area hook reports, or the output's rectangle when no shell
     * provides one.
     */
    function WorkareaFor(o: Option<OutputId>): Rect
      reads host
      requires o.Some? ==> o.value in host.outputs
    {
      if o.None? then ZeroRect
      else if host.workAreaHook.Some? then host.workAreaHook.value(o.value)
      else host.outputs[o.value].area
    }

    /**
     * Follows output `o`.  The geometry event goes out only when the workarea
     * changes and a client is bound; sending it reads the output's scale, so a
     * change to no output while bound is excluded.
     */
    method SetOutput(o: Option<OutputId>)
      requires o.Some? ==> o.value in host.outputs
      requires binding.Some? && workarea != WorkareaFor(o) ==> o.Some?
      modifies this`output, this`workarea, this`events
      ensures Valid()
      ensures output == o && workarea == WorkareaFor(o)
      ensures old(workarea) == workarea || binding.None? ==> events == old(events)
      ensures old(workarea) != workarea && binding.Some? ==>
                events == old(events) + [Geometry(binding.value, workarea.width, workarea.height, host.outputs[o.value].scale)]
    {
      var area := ZeroRect;
      output := o;
      if output.Some? {
        if host.workAreaHook.Some? {
          area := host.workAreaHook.value(output.value);
        } else {
          area := host.outputs[output.value].area;
        }
      }
      if workarea == area {
        return;
      }
      workarea := area;
      if binding.Some? {
        events := events + [Geometry(binding.value, workarea.width, workarea.height, host.outputs[output.value].scale)];
      }
    }

    /** The bound client goes away. */
    method Unbind()
      modifies this`binding
      ensures binding.None?
    {
      binding := None;
    }

    /**
     * bind: a second client is refused with BOUND and the first keeps the
     * global; the first client gets the current geometry, following the
     * first output when the area has none yet.
     */
    method Bind(r: ResourceId)
      requires Valid() && host.Valid()
      requires binding.None? && output.Some? ==> output.value in host.outputs
      modifies this`binding, this`output, this`workarea, this`events
      ensures Valid()
      ensures old(binding).Some? ==>
                && binding == old(binding) && events == old(events) + [ProtocolError(r, BoundError)]
                && output == old(output) && workarea == old(workarea)
      ensures old(binding).None? ==> binding == Some(r)
      ensures old(binding).None? && old(output).None? ==>
                && output == First(host.outputList) && workarea == WorkareaFor(output)
                && (workarea == ZeroRect ==> events == old(events))
                && (workarea != ZeroRect ==> events == old(events) + [Geometry(r, workarea.width, workarea.height, host.outputs[output.value].scale)])
      ensures old(binding).None? && old(output).Some? ==>
                && output == old(output) && workarea == old(workarea)
                && events == old(events) + [Geometry(r, workarea.width, workarea.height, host.outputs[output.value].scale)]
    {
      if binding.Some? {
        events := events + [ProtocolError(r, BoundError)];
        return;
      }
      binding := Some(r);
      if output.None? {
        SetOutput(First(host.outputList));
      } else {
        events := events + [Geometry(r, workarea.width, workarea.height, host.outputs[output.value].scale)];
      }
    }

    /**
     * bind as written: the unbind handler is the destructor of the new
     * resource and is installed before the "already bound" check, so
     * destroying a refused resource frees the global held by the first client.
     */
    method BindAsWritten(r: ResourceId)
      requires Valid() && host.Valid()
      requires binding.None? && output.Some? ==> output.value in host.outputs
      modifies this`binding, this`output, this`workarea, this`events
      ensures Valid()
      ensures old(binding).Some? ==>
                && binding.None? && events == old(events) + [ProtocolError(r, BoundError)]
                && output == old(output) && workarea == old(workarea)
      ensures old(binding).None? ==> binding == Some(r)
      ensures old(binding).None? && old(output).None? ==>
                && output == First(host.outputList) && workarea == WorkareaFor(output)
                && (workarea == ZeroRect ==> events == old(events))
                && (workarea != ZeroRect ==> events == old(events) + [Geometry(r, workarea.width, workarea.height, host.outputs[output.value].scale)])
      ensures old(binding).None? && old(output).Some? ==>
                && output == old(output) && workarea == old(workarea)
                && events == old(events) + [Geometry(r, workarea.width, workarea.height, host.outputs[output.value].scale)]
    {
      if binding.Some? {
        events := events + [ProtocolError(r, BoundError)];
        Unbind();
        return;
      }
      binding := Some(r);
      if output.None? {
        SetOutput(First(host.outputList));
      } else {
        events := events + [Geometry(r, workarea.width, workarea.height, host.outputs[output.value].scale)];
      }
    }

    /** A new output appears: the area follows the first output when it had none. */
    method OutputCreated()
      requires Valid() && host.Valid()
      modifies this`output, this`workarea, this`events
      ensures Valid()
      ensures old(output).Some? ==> output == old(output) && workarea == old(workarea) && events == old(events)
      ensures old(output).None? ==>
                && output == First(host.outputList) && workarea == WorkareaFor(output)
                && (workarea == ZeroRect || binding.None? ==> events == old(events))
                && (workarea != ZeroRect && binding.Some? ==>
                      events == old(events) + [Geometry(binding.value, workarea.width, workarea.height, host.outputs[output.value].scale)])
    {
      if output.None? {
        SetOutput(First(host.outputList));
      }
    }

    /**
     * Output `o` goes away: when the area follows it, it moves on to the first
     * remaining output (or none).  A bound client with a non-zero workarea
     * and no output left would make the geometry send read a missing output,
     * which is excluded.
     */
    method OutputDestroyed(o: OutputId)
      requires Valid() && host.Valid()
      requires output == Some(o) && binding.Some? && host.outputList == [] ==> workarea == ZeroRect
      modifies this`output, this`workarea, this`events
      ensures Valid()
      ensures old(output) != Some(o) ==> output == old(output) && workarea == old(workarea) && events == old(events)
      ensures old(output) == Some(o) ==>
                && output == First(host.outputList) && workarea == WorkareaFor(output)
                && (old(workarea) == workarea || binding.None? ==> events == old(events))
                && (old(workarea) != workarea && binding.Some? ==>
                      events == old(events) + [Geometry(binding.value, workarea.width, workarea.height, host.outputs[output.value].scale)])
    {
      if output == Some(o) {
        SetOutput(First(host.outputList));
      }
    }

    /** Output `o` moves: when the area follows it, the workarea is read again. */
    method OutputMoved(o: OutputId)
      requires Valid() && o in host.outputs
      modifies this`output, this`workarea, this`events
      ensures Valid()
      ensures old(output) != Some(o) ==> output == old(output) && workarea == old(workarea) && events == old(events)
      ensures old(output) == Some(o) ==>
                && output == Some(o) && workarea == WorkareaFor(output)
                && (old(workarea) == workarea || binding.None? ==> events == old(events))
                && (old(workarea) != workarea && binding.Some? ==>
                      events == old(events) + [Geometry(binding.value, workarea.width, workarea.height, host.outputs[o].scale)])
    {
      if output == Some(o) {
        SetOutput(output);
      }
    }

    /** create_notification: the surface takes the notification role (or the request is refused with ROLE) and gets a view. */
    method CreateNotification(areaResource: ResourceId, id: ResourceId, s: SurfaceId) returns (n: Notification?)
      requires host.Valid() && s in host.surfaces
      modifies this`events, host`surfaces, host`views, host`nextView
      ensures host.Valid()
      ensures !RoleFree(old(host.surfaces[s]), NotificationRole) ==>
                && n == null && events == old(events) + [ProtocolError(areaResource, RoleError)]
                && host.surfaces == old(host.surfaces) && host.views == old(host.views)
      ensures RoleFree(old(host.surfaces[s]), NotificationRole) ==>
                && n != null && fresh(n) && n.area == this && n.surface == s && n.resource == Some(id)
                && n.view !in old(host.views)
                && host.views == old(host.views)[n.view := View(s, 0, 0, false)]
                && host.surfaces == old(host.surfaces)[s := old(host.surfaces[s]).(role := Some(NotificationRole), views := [n.view] + old(host.surfaces[s]).views)]
                && events == old(events)
    {
      var ok := host.SetRole(s, NotificationRole);
      if !ok {
        events := events + [ProtocolError(areaResource, RoleError)];
        return null;
      }
      var v := host.CreateView(s);
      n := new Notification(this, s, v, id);
    }
  }

  /** A notification surface shown by the area's client. */
  class Notification {
    const area: Area
    const surface: SurfaceId
    const view: ViewId
    var resource: Option<ResourceId>

    constructor (area: Area, surface: SurfaceId, view: ViewId, resource: ResourceId)
      ensures this.area == area && this.surface == surface && this.view == view && this.resource == Some(resource)
    {
      this.area, this.surface, this.view := area, surface, view;
      this.resource := Some(resource);
    }

    /**
     * move: the requested position is relative to the workarea, so the view
     * lands at that position offset by the workarea's origin; the first move
     * maps it.
     */
    method Move(x: int, y: int)
      requires view in area.host.views
      modifies area.host`views
      ensures area.host.views == old(area.host.views)[view := old(area.host.views[view]).(x := x + area.workarea.x, y := y + area.workarea.y, mapped := true)]
    {
      var v := area.host.views[view];
      area.host.views := area.host.views[view := v.(x := x + area.workarea.x, y := y + area.workarea.y, mapped := true)];
    }

    /** The notification's resource is destroyed: the notification forgets it (its view stays). */
    method ResourceDestroyed()
      modifies this`resource
      ensures resource.None?
    {
      resource := None;
    }
  }

  /** Two clients bind in turn through the handler as written: the refused second bind leaves the global unbound. */
  method RebindAsWritten() returns (first: Option<ResourceId>, after: Option<ResourceId>)
    ensures first == Some(1) && after == None
  {
    var host := new Compositor();
    var area := new Area(host);
    area.BindAsWritten(1);
    first := area.binding;
    area.BindAsWritten(2);
    after := area.binding;
  }

  /** Two clients bind in turn: the second is refused with BOUND and the first keeps the global. */
  method Rebind() returns (after: Option<ResourceId>, errors: seq<AreaEvent>)
    ensures after == Some(1) && errors == [ProtocolError(2, BoundError)]
  {
    var host := new Compositor();
    var area := new Area(host);
    area.Bind(1);
    area.Bind(2);
    after, errors := area.binding, area.events;
  }
}
